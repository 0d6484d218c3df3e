/**
 * The dataset publisher: the ingestion request message, the dataset id
 * derived from a URL, the Kafka REST client's normalised settings and the
 * payload it posts, and how the publish command assembles its messages.
 *
 * Library calls are parameters: `urlparse(url).path` is `pathOf(url)`, or
 * the exception urlparse raises, and the hex digits of the uuid4 drawn for
 * item i are `hexFor(i)`.
 */
module DatasetPublisher {
  import opened Wrappers
  import opened PyText
  import opened JsonValue
  import opened PathResolver
  import DQA = DqaValidator

  /**
   * A dataset ingestion request. The dataclass annotates both fields as
   * strings but does not check them, so a request file can put any JSON
   * value in either; the command line always gives strings.
   */
  datatype DatasetMessage = DatasetMessage(s3Url: Json, datasetId: Json)
  {
    /** to_dict: a mapping with exactly the keys s3_url and dataset_id. */
    function ToDict(): (d: Json)
      ensures d.Obj? && Keys(d.fields) == ["s3_url", "dataset_id"]
      ensures Lookup(d.fields, "s3_url") == Some(s3Url)
      ensures Lookup(d.fields, "dataset_id") == Some(datasetId)
    {
      Obj([("s3_url", s3Url), ("dataset_id", datasetId)])
    }
  }

  /**
   * urlparse(url).path, or the exception urlparse raises on a URL it cannot
   * split (a ValueError for a netloc with an unbalanced '[' or ']').
   */
  type PathOf = string -> Result<string, Failure>

  /** An optional command-line string that Python treats as true: given and not empty. */
  predicate Given(arg: Option<string>) {
    arg.Some? && arg.value != ""
  }

  /** s[:n]. */
  function Take(s: string, n: nat): (r: string)
    ensures |r| == if |s| <= n then |s| else n
    ensures r == s[..|r|]
  {
    if |s| <= n then s else s[..n]
  }

  // ---------------------------------------------------------------------------
  // The dataset id derived from a URL path

  /**
   * p is the final run of s before which c last occurs: a suffix of s
   * holding no c that is either all of s or preceded by c.
   */
  predicate FinalRun(s: string, c: char, p: string) {
    |p| <= |s| && s[|s| - |p|..] == p && c !in p && (|p| == |s| || s[|s| - |p| - 1] == c)
  }

  /** The last '/'-separated piece of a path: path.split("/")[-1]. */
  function LastSegment(path: string): (r: string)
    ensures FinalRun(path, '/', r)
  {
    var parts := Split(path, '/');
    var last := parts[|parts| - 1];
    LastPieceIsFinalRun(path, '/', parts, last);
    last
  }

  /**
   * The file name of a URL path without its last extension: trailing '/'
   * stripped, the last segment taken, and everything from its last '.' on
   * dropped.
   */
  function BaseName(urlPath: string): string {
    var path := RStripChar(urlPath, '/');
    var filename := if path != "" then LastSegment(path) else "";
    if '.' in filename then filename[..LastIndexOf(filename, '.')] else filename
  }

  /** The id from_url derives: the base name, or "dataset-" and eight hex digits when that is empty. */
  function DerivedId(urlPath: string, uuidHex: string): string {
    if BaseName(urlPath) != "" then BaseName(urlPath) else "dataset-" + Take(uuidHex, 8)
  }

  /**
   * from_url: a given id is kept without parsing the URL; otherwise the URL
   * is parsed, and its path names the dataset or urlparse's exception
   * propagates.
   */
  function FromUrl(s3Url: string, datasetId: Option<string>, pathOf: PathOf, uuidHex: string): (r: Result<DatasetMessage, Failure>)
    ensures r.Ok? <==> datasetId.Some? || pathOf(s3Url).Ok?
    ensures r.Ok? ==> r.value.s3Url == Str(s3Url) && r.value.datasetId.Str?
    ensures r.Err? ==> pathOf(s3Url).Err? && r.error == pathOf(s3Url).error
  {
    if datasetId.Some? then Ok(DatasetMessage(Str(s3Url), Str(datasetId.value)))
    else
      var urlPath :- pathOf(s3Url);
      Ok(DatasetMessage(Str(s3Url), Str(DerivedId(urlPath, uuidHex))))
  }

  /** Joining n >= 2 pieces is joining the first n - 1, a separator, and the last. */
  lemma {:induction false} JoinLast(parts: seq<string>, c: char)
    requires |parts| >= 2
    ensures Join(parts, c) == Join(parts[..|parts| - 1], c) + [c] + parts[|parts| - 1]
  {
    if |parts| > 2 {
      JoinLast(parts[1..], c);
      assert parts[1..][..|parts| - 2] == parts[..|parts| - 1][1..];
    }
  }

  /** A string free of c is its own final run. */
  lemma WholeIsFinalRun(s: string, c: char)
    requires c !in s
    ensures FinalRun(s, c, s)
  {
    assert s[0..] == s;
  }

  /** What follows a c that has no c after it is the final run. */
  lemma TailIsFinalRun(s: string, pre: string, c: char, p: string)
    requires s == pre + [c] + p && c !in p
    ensures FinalRun(s, c, p)
  {
    assert s[|pre|] == c && s[|pre| + 1..] == p;
  }

  /** The last piece split() yields is the final run after the last separator. */
  lemma LastPieceIsFinalRun(s: string, c: char, parts: seq<string>, p: string)
    requires parts == Split(s, c) && p == parts[|parts| - 1]
    ensures FinalRun(s, c, p)
  {
    assert c !in p;
    if |parts| == 1 {
      assert Join(parts, c) == p;
      WholeIsFinalRun(s, c);
    } else {
      JoinLast(parts, c);
      TailIsFinalRun(s, Join(parts[..|parts| - 1], c), c, p);
    }
  }

  /** A string has only one final run for a given separator. */
  lemma FinalRunUnique(s: string, c: char, p: string, q: string)
    requires FinalRun(s, c, p) && FinalRun(s, c, q)
    ensures p == q
  {
  }

  /** The last occurrence is the one position holding c with no c after it. */
  lemma LastIndexUnique(s: string, c: char, k: nat)
    requires k < |s| && s[k] == c && c !in s[k + 1..]
    ensures LastIndexOf(s, c) == k
  {
    assert s[k] in s;
  }

  /** In pre + [c] + p, with no c in p, the last c is the one after pre. */
  lemma LastSeparatorBefore(s: string, pre: string, c: char, p: string)
    requires s == pre + [c] + p && c !in p
    ensures LastIndexOf(s, c) == |pre| && s[|pre| + 1..] == p
  {
    assert s[|pre| + 1..] == p;
    LastIndexUnique(s, c, |pre|);
  }

  /**
   * The derived name is the final '/'-run of the path, with trailing '/'
   * stripped, cut before its last '.' when it has one.
   */
  lemma BaseNameOfPath(urlPath: string, filename: string)
    requires FinalRun(RStripChar(urlPath, '/'), '/', filename)
    ensures BaseName(urlPath) == if '.' in filename then filename[..LastIndexOf(filename, '.')] else filename
  {
    var path := RStripChar(urlPath, '/');
    if path != "" {
      FinalRunUnique(path, '/', LastSegment(path), filename);
    }
  }

  /** Stripping a path with one more '/' at its end gives the same result. */
  lemma StripExtraSlash(urlPath: string)
    ensures RStripChar(urlPath + "/", '/') == RStripChar(urlPath, '/')
  {
    var s := urlPath + "/";
    assert s[..|s| - 1] == urlPath;
  }

  /** Trailing '/' do not change the name: "/data/" names the dataset as "/data" does. */
  lemma TrailingSlashIgnored(urlPath: string)
    ensures BaseName(urlPath + "/") == BaseName(urlPath)
  {
    StripExtraSlash(urlPath);
  }

  /** Only the last extension goes: a segment "name.ext" whose ext has no '.' names the dataset "name". */
  lemma LastExtensionDropped(dir: string, name: string, ext: string)
    requires '/' !in name && '/' !in ext && '.' !in ext && ext != ""
    ensures BaseName(dir + "/" + name + "." + ext) == name
  {
    var filename := name + "." + ext;
    var s := dir + "/" + name + "." + ext;
    assert s == dir + ['/'] + filename;
    FileNameParts(name, ext);
    assert s[|s| - 1] == ext[|ext| - 1];
    assert RStripChar(s, '/') == s;
    TailIsFinalRun(s, dir, '/', filename);
    BaseNameOfPath(s, filename);
  }

  /** The file name "name.ext" holds no '/', and cut before its last '.' it is name. */
  lemma FileNameParts(name: string, ext: string)
    requires '/' !in name && '/' !in ext && '.' !in ext
    ensures var filename := name + "." + ext;
            && '/' !in filename
            && '.' in filename
            && filename[..LastIndexOf(filename, '.')] == name
  {
    var filename := name + "." + ext;
    assert filename == name + ['.'] + ext;
    LastSeparatorBefore(filename, name, '.', ext);
    assert filename[..|name|] == name;
    assert filename[|name|] in filename;
  }

  /** A segment that is only an extension, like ".csv", names nothing, so a generated id is used. */
  lemma HiddenFileFallsBack(s3Url: string, dir: string, ext: string, pathOf: PathOf, uuidHex: string)
    requires '/' !in ext && '.' !in ext && ext != ""
    requires pathOf(s3Url) == Ok(dir + "/." + ext)
    ensures FromUrl(s3Url, None, pathOf, uuidHex) == Ok(DatasetMessage(Str(s3Url), Str("dataset-" + Take(uuidHex, 8))))
  {
    var path := dir + "/." + ext;
    assert path == dir + "/" + "" + "." + ext;
    LastExtensionDropped(dir, "", ext);
    assert BaseName(path) == "";
  }

  /** A derived id is never empty: an empty base name falls back to the generated one. */
  lemma DerivedIdNotEmpty(s3Url: string, urlPath: string, pathOf: PathOf, uuidHex: string)
    requires pathOf(s3Url) == Ok(urlPath)
    ensures FromUrl(s3Url, None, pathOf, uuidHex).Ok?
    ensures FromUrl(s3Url, None, pathOf, uuidHex).value.datasetId != Str("")
    ensures BaseName(urlPath) == "" ==> FromUrl(s3Url, None, pathOf, uuidHex).value.datasetId == Str("dataset-" + Take(uuidHex, 8))
    ensures BaseName(urlPath) != "" ==> FromUrl(s3Url, None, pathOf, uuidHex).value.datasetId == Str(BaseName(urlPath))
  {
  }

  /** A given id, even an empty one, is kept unchanged, and the URL is not parsed, so even a malformed one passes. */
  lemma GivenIdKept(s3Url: string, id: string, pathOf: PathOf, uuidHex: string)
    ensures FromUrl(s3Url, Some(id), pathOf, uuidHex) == Ok(DatasetMessage(Str(s3Url), Str(id)))
  {
  }

  // ---------------------------------------------------------------------------
  // The Kafka REST client

  /** One record of the request: the message under "value", and the key only when one is given. */
  function Record(m: DatasetMessage, key: Option<string>): Json {
    Obj([("value", m.ToDict())] + (if Given(key) then [("key", Str(key.value))] else []))
  }

  /** The records for the messages, in order. */
  function Records(messages: seq<DatasetMessage>, key: Option<string>): (rs: seq<Json>)
    ensures |rs| == |messages|
  {
    if messages == [] then []
    else Records(messages[..|messages| - 1], key) + [Record(messages[|messages| - 1], key)]
  }

  /** Record i carries message i. */
  lemma {:induction false} RecordsAt(messages: seq<DatasetMessage>, key: Option<string>, i: nat)
    requires i < |messages|
    ensures Records(messages, key)[i] == Record(messages[i], key)
  {
    if i < |messages| - 1 {
      RecordsAt(messages[..|messages| - 1], key, i);
    }
  }

  /** A record holds the message's mapping under "value", and a "key" exactly when a key is given. */
  lemma RecordFields(m: DatasetMessage, key: Option<string>)
    ensures var r := Record(m, key);
            && r.Obj?
            && Lookup(r.fields, "value") == Some(m.ToDict())
            && ("key" in Keys(r.fields) <==> Given(key))
            && (Given(key) ==> Lookup(r.fields, "key") == Some(Str(key.value)))
  {
    var r := Record(m, key);
    if Given(key) {
      assert Keys(r.fields) == ["value", "key"];
    } else {
      assert Keys(r.fields) == ["value"];
    }
  }

  class KafkaRestClient {
    var baseUrl: string
    var timeout: int
    var auth: Option<(string, string)>

    /** Trailing '/' are stripped from the base URL; credentials are kept only when both are given. */
    constructor(baseUrl: string, username: Option<string>, password: Option<string>, timeout: int)
      ensures this.baseUrl == RStripChar(baseUrl, '/')
      ensures this.baseUrl == [] || this.baseUrl[|this.baseUrl| - 1] != '/'
      ensures this.timeout == timeout
      ensures this.auth.Some? <==> Given(username) && Given(password)
      ensures this.auth.Some? ==> this.auth.value == (username.value, password.value)
    {
      this.baseUrl := RStripChar(baseUrl, '/');
      this.timeout := timeout;
      this.auth := None;
      new;
      if Given(username) && Given(password) {
        this.auth := Some((username.value, password.value));
      }
    }

    /**
     * publish, up to the request it sends: the topic's URL and the payload
     * {"records": [...]}, one record per message, built in a loop.
     */
    method Publish(topic: string, messages: seq<DatasetMessage>, key: Option<string>) returns (url: string, payload: Json)
      ensures url == baseUrl + "/topics/" + topic
      ensures payload == Obj([("records", Arr(Records(messages, key)))])
    {
      url := baseUrl + "/topics/" + topic;
      var records := BuildRecords(messages, key);
      payload := Obj([("records", Arr(records))]);
    }
  }

  /** The loop in publish that turns each message into its record. */
  method BuildRecords(messages: seq<DatasetMessage>, key: Option<string>) returns (records: seq<Json>)
    ensures records == Records(messages, key)
  {
    records := [];
    var i := 0;
    while i < |messages|
      invariant 0 <= i <= |messages|
      invariant records == Records(messages[..i], key)
    {
      RecordsSnoc(messages, i, key);
      records := records + [Record(messages[i], key)];
      i := i + 1;
    }
    assert messages[..i] == messages;
  }

  /** The records of one more message are the records so far and its record. */
  lemma RecordsSnoc(messages: seq<DatasetMessage>, i: nat, key: Option<string>)
    requires i < |messages|
    ensures Records(messages[..i + 1], key) == Records(messages[..i], key) + [Record(messages[i], key)]
  {
    assert messages[..i + 1][..i] == messages[..i];
  }

  // ---------------------------------------------------------------------------
  // The publish command's messages

  /**
   * One item of a request file: item["s3_url"] (TypeError on a non-mapping,
   * KeyError when missing), then item.get("dataset_id") when it is true,
   * and otherwise the id from_url derives. The message keeps both values
   * whatever their types. from_url on a string URL raises what urlparse
   * raises; on a non-string URL it fails inside urlparse: a true value has
   * no decode() (AttributeError), and a false one parses to a bytes path
   * that rstrip("/") refuses (TypeError).
   */
  function ItemMessage(item: Json, pathOf: PathOf, uuidHex: string): (r: Result<DatasetMessage, Failure>)
    ensures !item.Obj? ==> r == Err(Raised("TypeError"))
    ensures item.Obj? && "s3_url" !in Keys(item.fields) ==> r == Err(Raised("KeyError"))
    ensures r.Ok? ==> item.Obj? && Lookup(item.fields, "s3_url") == Some(r.value.s3Url)
    ensures item.Obj? && "s3_url" in Keys(item.fields) ==>
              var url := Lookup(item.fields, "s3_url").value;
              var given := Lookup(item.fields, "dataset_id");
              if given.Some? && Truthy(given.value) then r == Ok(DatasetMessage(url, given.value))
              else if url.Str? && pathOf(url.s).Ok? then r == Ok(DatasetMessage(url, Str(DerivedId(pathOf(url.s).value, uuidHex))))
              else if url.Str? then r == Err(pathOf(url.s).error)
              else r == Err(Raised(if Truthy(url) then "AttributeError" else "TypeError"))
  {
    var url :- DQA.Subscript(item, "s3_url");
    var given := Lookup(item.fields, "dataset_id");
    if given.Some? && Truthy(given.value) then
      Ok(DatasetMessage(url, given.value))
    else if url.Str? then
      var m :- FromUrl(url.s, None, pathOf, uuidHex);
      Ok(DatasetMessage(url, m.datasetId))
    else if Truthy(url) then
      Err(Raised("AttributeError"))
    else
      Err(Raised("TypeError"))
  }

  /** A missing or empty dataset_id in a file falls back to the id derived from the URL; any other is kept. */
  lemma ItemIdFallback(url: string, id: Option<string>, pathOf: PathOf, uuidHex: string)
    ensures var item := Obj([("s3_url", Str(url))] + (if id.Some? then [("dataset_id", Str(id.value))] else []));
            var r := ItemMessage(item, pathOf, uuidHex);
            && (Given(id) ==> r == Ok(DatasetMessage(Str(url), Str(id.value))))
            && (!Given(id) ==> r == FromUrl(url, None, pathOf, uuidHex))
  {
    var fs := [("s3_url", Str(url))] + (if id.Some? then [("dataset_id", Str(id.value))] else []);
    LookupAt(fs, "s3_url", 0);
    var given := if id.Some? then Some(Str(id.value)) else None;
    if id.Some? {
      LookupAt(fs, "dataset_id", 1);
    } else {
      assert fs == [("s3_url", Str(url))];
    }
    ItemWithUrl(fs, url, given, pathOf, uuidHex);
  }

  /** An item whose s3_url is a string yields that URL with the given id when it is a true string, and otherwise what from_url gives. */
  lemma ItemWithUrl(fs: seq<(string, Json)>, url: string, given: Option<Json>, pathOf: PathOf, uuidHex: string)
    requires Lookup(fs, "s3_url") == Some(Str(url)) && Lookup(fs, "dataset_id") == given
    requires given.None? || given.value.Str?
    ensures var r := ItemMessage(Obj(fs), pathOf, uuidHex);
            && (given.Some? && given.value.s != "" ==> r == Ok(DatasetMessage(Str(url), given.value)))
            && (given.None? || given.value.s == "" ==> r == FromUrl(url, None, pathOf, uuidHex))
  {
    assert DQA.Subscript(Obj(fs), "s3_url") == Ok(Str(url));
    var r := ItemMessage(Obj(fs), pathOf, uuidHex);
    if given.Some? && given.value.s != "" {
      assert Truthy(given.value);
    } else {
      assert !(given.Some? && Truthy(given.value));
    }
  }

  /** A true dataset_id of any type is published as it is, next to an s3_url of any type. */
  lemma ItemKeepsUntypedFields(url: Json, id: Json, pathOf: PathOf, uuidHex: string)
    requires Truthy(id)
    ensures ItemMessage(Obj([("s3_url", url), ("dataset_id", id)]), pathOf, uuidHex).Ok?
    ensures ItemMessage(Obj([("s3_url", url), ("dataset_id", id)]), pathOf, uuidHex).value.ToDict()
            == Obj([("s3_url", url), ("dataset_id", id)])
  {
    var fs := [("s3_url", url), ("dataset_id", id)];
    LookupAt(fs, "s3_url", 0);
    LookupAt(fs, "dataset_id", 1);
  }

  /** The items of a file's list, in order; the first failing item aborts. */
  function ItemsMessages(items: seq<Json>, pathOf: PathOf, hexFor: nat -> string): (r: Result<seq<DatasetMessage>, Failure>)
    ensures r.Ok? ==> |r.value| == |items|
    ensures (forall i :: 0 <= i < |items| ==> ItemMessage(items[i], pathOf, hexFor(i)).Ok?) ==> r.Ok?
  {
    if items == [] then Ok([])
    else
      assert forall i :: 0 <= i < |items| - 1 ==> items[..|items| - 1][i] == items[i];
      var init :- ItemsMessages(items[..|items| - 1], pathOf, hexFor);
      var m :- ItemMessage(items[|items| - 1], pathOf, hexFor(|items| - 1));
      Ok(init + [m])
  }

  /** When the file's items all read, message i is item i's. */
  lemma {:induction false} ItemsMessagesAt(items: seq<Json>, pathOf: PathOf, hexFor: nat -> string, i: nat)
    requires ItemsMessages(items, pathOf, hexFor).Ok? && i < |items|
    ensures ItemMessage(items[i], pathOf, hexFor(i)).Ok?
    ensures ItemsMessages(items, pathOf, hexFor).value[i] == ItemMessage(items[i], pathOf, hexFor(i)).value
  {
    var init := items[..|items| - 1];
    if i < |items| - 1 {
      ItemsMessagesAt(init, pathOf, hexFor, i);
    }
  }

  /** A request file: a list gives one message per item, anything else one message. */
  function FileMessages(data: Json, pathOf: PathOf, hexFor: nat -> string): (r: Result<seq<DatasetMessage>, Failure>)
    ensures r.Ok? ==> |r.value| == if data.Arr? then |data.items| else 1
    ensures data.Arr? && r.Ok? ==> forall i :: 0 <= i < |data.items| ==> ItemMessage(data.items[i], pathOf, hexFor(i)) == Ok(r.value[i])
    ensures !data.Arr? ==> (r.Ok? <==> ItemMessage(data, pathOf, hexFor(0)).Ok?)
    ensures !data.Arr? && r.Ok? ==> ItemMessage(data, pathOf, hexFor(0)) == Ok(r.value[0])
  {
    if data.Arr? then
      var r := ItemsMessages(data.items, pathOf, hexFor);
      assert r.Ok? ==> forall i :: 0 <= i < |data.items| ==> ItemMessage(data.items[i], pathOf, hexFor(i)) == Ok(r.value[i]) by {
        if r.Ok? {
          forall i | 0 <= i < |data.items| ensures ItemMessage(data.items[i], pathOf, hexFor(i)) == Ok(r.value[i]) {
            ItemsMessagesAt(data.items, pathOf, hexFor, i);
          }
        }
      }
      r
    else
      var m :- ItemMessage(data, pathOf, hexFor(0));
      Ok([m])
  }

  /** The file branch of cmd_publish, appending one message per item in a loop. */
  method LoadMessages(data: Json, pathOf: PathOf, hexFor: nat -> string) returns (r: Result<seq<DatasetMessage>, Failure>)
    ensures r == FileMessages(data, pathOf, hexFor)
  {
    if data.Arr? {
      r := LoadItems(data.items, pathOf, hexFor);
    } else {
      var m := ItemMessage(data, pathOf, hexFor(0));
      if m.Err? {
        return Err(m.error);
      }
      return Ok([m.value]);
    }
  }

  /** The loop over a list of items, stopping at the first that does not read. */
  method LoadItems(items: seq<Json>, pathOf: PathOf, hexFor: nat -> string) returns (r: Result<seq<DatasetMessage>, Failure>)
    ensures r == ItemsMessages(items, pathOf, hexFor)
  {
    var messages: seq<DatasetMessage> := [];
    var i := 0;
    while i < |items|
      invariant 0 <= i <= |items|
      invariant ItemsMessages(items[..i], pathOf, hexFor) == Ok(messages)
    {
      var m := ItemMessage(items[i], pathOf, hexFor(i));
      ItemsStep(items, pathOf, hexFor, i);
      if m.Err? {
        StopsAtFailure(items, pathOf, hexFor, i + 1);
        return Err(m.error);
      }
      messages := messages + [m.value];
      i := i + 1;
    }
    assert items[..i] == items;
    return Ok(messages);
  }

  /** One more item extends the messages of the prefix before it, or fails with its error. */
  lemma ItemsStep(items: seq<Json>, pathOf: PathOf, hexFor: nat -> string, i: nat)
    requires i < |items| && ItemsMessages(items[..i], pathOf, hexFor).Ok?
    ensures var m := ItemMessage(items[i], pathOf, hexFor(i));
            ItemsMessages(items[..i + 1], pathOf, hexFor)
            == if m.Err? then Err(m.error) else Ok(ItemsMessages(items[..i], pathOf, hexFor).value + [m.value])
  {
    assert items[..i + 1][..i] == items[..i];
    assert items[..i + 1][i] == items[i];
  }

  /** Once a prefix of the items fails, the whole list fails with the same error. */
  lemma {:induction false} StopsAtFailure(items: seq<Json>, pathOf: PathOf, hexFor: nat -> string, n: nat)
    requires n <= |items| && ItemsMessages(items[..n], pathOf, hexFor).Err?
    ensures ItemsMessages(items, pathOf, hexFor) == ItemsMessages(items[..n], pathOf, hexFor)
    decreases |items| - n
  {
    if n == |items| {
      assert items[..n] == items;
    } else {
      assert items[..n + 1][..n] == items[..n];
      StopsAtFailure(items, pathOf, hexFor, n + 1);
    }
  }

  /**
   * The messages cmd_publish sends: those of the request file when one is
   * given, where a KeyError is caught and exits; otherwise one message from
   * the command line, which requires a non-empty --s3-url and passes
   * --dataset-id to from_url as given. Other exceptions propagate.
   */
  function CommandMessages(fromFile: Option<Json>, s3Url: Option<string>, datasetId: Option<string>,
                           pathOf: PathOf, hexFor: nat -> string): (r: Result<seq<DatasetMessage>, Failure>)
    ensures fromFile.None? ==> (r.Ok? <==> Given(s3Url) && (datasetId.Some? || pathOf(s3Url.value).Ok?))
    ensures fromFile.None? && r.Ok? ==> |r.value| == 1 && r.value[0].s3Url == Str(s3Url.value)
    ensures fromFile.None? && r.Ok? && datasetId.Some? ==> r.value[0].datasetId == Str(datasetId.value)
    ensures fromFile.None? && r.Ok? && datasetId.None? ==>
              pathOf(s3Url.value).Ok? && r.value[0].datasetId == Str(DerivedId(pathOf(s3Url.value).value, hexFor(0)))
    ensures fromFile.None? && !Given(s3Url) ==> r == Err(Raised("SystemExit"))
    ensures fromFile.None? && Given(s3Url) && r.Err? ==> pathOf(s3Url.value).Err? && r.error == pathOf(s3Url.value).error
    ensures fromFile.Some? && FileMessages(fromFile.value, pathOf, hexFor) == Err(Raised("KeyError")) ==>
              r == Err(Raised("SystemExit"))
    ensures fromFile.Some? && FileMessages(fromFile.value, pathOf, hexFor) != Err(Raised("KeyError")) ==>
              r == FileMessages(fromFile.value, pathOf, hexFor)
  {
    if fromFile.Some? then
      var loaded := FileMessages(fromFile.value, pathOf, hexFor);
      if loaded == Err(Raised("KeyError")) then Err(Raised("SystemExit")) else loaded
    else if !Given(s3Url) then Err(Raised("SystemExit"))
    else
      var m :- FromUrl(s3Url.value, datasetId, pathOf, hexFor(0));
      Ok([m])
  }

  /** A request file without s3_url, alone or as a list item, makes the command exit. */
  lemma MissingUrlExits(item: Json, pathOf: PathOf, hexFor: nat -> string)
    requires item.Obj? && "s3_url" !in Keys(item.fields)
    ensures CommandMessages(Some(item), None, None, pathOf, hexFor) == Err(Raised("SystemExit"))
    ensures CommandMessages(Some(Arr([item])), None, None, pathOf, hexFor) == Err(Raised("SystemExit"))
  {
    assert ItemMessage(item, pathOf, hexFor(0)) == Err(Raised("KeyError"));
    assert [item][..0] == [];
  }

  /**
   * A URL urlparse rejects with a ValueError is not caught: it propagates
   * from the command line when no id is given, and from a file item with no
   * dataset_id.
   */
  lemma MalformedUrlRaises(url: string, pathOf: PathOf, hexFor: nat -> string)
    requires url != "" && pathOf(url) == Err(Raised("ValueError"))
    ensures CommandMessages(None, Some(url), None, pathOf, hexFor) == Err(Raised("ValueError"))
    ensures CommandMessages(Some(Obj([("s3_url", Str(url))])), None, None, pathOf, hexFor) == Err(Raised("ValueError"))
  {
    ItemIdFallback(url, None, pathOf, hexFor(0));
    assert Obj([("s3_url", Str(url))] + []) == Obj([("s3_url", Str(url))]);
  }

  /**
   * The two routes treat an empty dataset id differently: on the command
   * line it is kept as the id, while in a file it falls back to the derived one.
   */
  lemma EmptyIdRoutes(url: string, pathOf: PathOf, hexFor: nat -> string)
    requires url != ""
    ensures CommandMessages(None, Some(url), Some(""), pathOf, hexFor) == Ok([DatasetMessage(Str(url), Str(""))])
    ensures var item := Obj([("s3_url", Str(url)), ("dataset_id", Str(""))]);
            pathOf(url).Ok? ==>
              CommandMessages(Some(item), None, None, pathOf, hexFor)
                == Ok([DatasetMessage(Str(url), Str(DerivedId(pathOf(url).value, hexFor(0))))])
  {
    ItemIdFallback(url, Some(""), pathOf, hexFor(0));
    var item := Obj([("s3_url", Str(url)), ("dataset_id", Str(""))]);
    assert item == Obj([("s3_url", Str(url))] + [("dataset_id", Str(""))]);
  }
}
