/**
 * The two `.env` uploaders: `sync:hf-env` parses `.env` in TypeScript and
 * uploads one `secrets/<KEY>` file per variable; `sync_hf_secrets.py` parses
 * it in Python and sets one Space secret per variable, counting successes
 * and failures. The two parsers differ in comments, in lines without '='
 * and in the quotes they remove.
 *
 * File reading, the prompts and the remote calls are parameters.
 */
module EnvSync {
  import opened Text

  /** A parsed `KEY=value` line. */
  datatype Entry = Entry(key: string, value: string)

  /** The variables in the order their keys were first set, and their last values. */
  datatype Config = Config(order: seq<string>, values: map<string, string>)

  /** The dictionary after setting one entry per parsed line, in line order. */
  function Loaded(entries: seq<Option<Entry>>): Config {
    if entries == [] then Config([], map[])
    else
      var c := Loaded(entries[..|entries| - 1]);
      match entries[|entries| - 1]
      case None => c
      case Some(e) => Config(if e.key in c.values then c.order else c.order + [e.key], c.values[e.key := e.value])
  }

  /** Line `i` sets `key`. */
  predicate Sets(entries: seq<Option<Entry>>, i: int, key: string) {
    0 <= i < |entries| && entries[i].Some? && entries[i].value.key == key
  }

  /** Each key appears once in the order, and the order lists exactly the keys set. */
  lemma {:induction false} LoadedKeys(entries: seq<Option<Entry>>)
    ensures var c := Loaded(entries);
      Distinct(c.order) && forall k :: k in c.values <==> k in c.order
  {
    if entries != [] {
      LoadedKeys(entries[..|entries| - 1]);
    }
  }

  /** A key is set iff some line sets it. */
  lemma {:induction false} LoadedHas(entries: seq<Option<Entry>>, key: string)
    ensures key in Loaded(entries).values <==> exists i :: Sets(entries, i, key)
  {
    if entries != [] {
      var n := |entries| - 1;
      LoadedHas(entries[..n], key);
      if exists i :: Sets(entries, i, key) {
        var i :| Sets(entries, i, key);
        if i < n {
          assert Sets(entries[..n], i, key);
        }
      }
      if exists i :: Sets(entries[..n], i, key) {
        var i :| Sets(entries[..n], i, key);
        assert Sets(entries, i, key);
      }
      if entries[n].Some? && entries[n].value.key == key {
        assert Sets(entries, n, key);
      }
    }
  }

  /** A later line overrides an earlier one: the value is that of the last line setting the key. */
  lemma {:induction false} LoadedLastWins(entries: seq<Option<Entry>>, key: string, i: nat)
    requires Sets(entries, i, key)
    requires forall j :: i < j < |entries| ==> !Sets(entries, j, key)
    ensures key in Loaded(entries).values && Loaded(entries).values[key] == entries[i].value.value
  {
    var n := |entries| - 1;
    if i < n {
      assert !Sets(entries, n, key);
      assert Sets(entries[..n], i, key);
      forall j | i < j < n ensures !Sets(entries[..n], j, key) {
        assert !Sets(entries, j, key);
      }
      LoadedLastWins(entries[..n], key, i);
    }
  }

  /** Each line through the line parser. */
  function Parsed(lines: seq<string>, parse: string -> Option<Entry>): (entries: seq<Option<Entry>>)
    ensures |entries| == |lines| && forall i :: 0 <= i < |lines| ==> entries[i] == parse(lines[i])
  {
    seq(|lines|, i requires 0 <= i < |lines| => parse(lines[i]))
  }

  /** The line loop, with the line parser as a parameter. */
  method Load(lines: seq<string>, parse: string -> Option<Entry>) returns (config: Config)
    ensures config == Loaded(Parsed(lines, parse))
  {
    ghost var entries := Parsed(lines, parse);
    var order: seq<string> := [];
    var values: map<string, string> := map[];
    for i := 0 to |lines|
      invariant Config(order, values) == Loaded(entries[..i])
    {
      assert entries[..i + 1][..i] == entries[..i];
      var entry := parse(lines[i]);
      if entry.Some? {
        if entry.value.key !in values {
          order := order + [entry.value.key];
        }
        values := values[entry.value.key := entry.value.value];
      }
    }
    assert entries[..|lines|] == entries;
    config := Config(order, values);
  }

  // ------------------------------------------------------------------ sync:hf-env (TypeScript)

  predicate IsQuote(c: char) { c == '\'' || c == '"' }

  /**
   * `value.replace(/^['"](.*)['"]$/, '$1')`: a quote at each end, not
   * necessarily the same one, is removed, unless a line terminator (which
   * `.` does not match) lies between them.
   */
  function JsUnquote(v: string): (r: string)
    ensures (|v| >= 2 && IsQuote(v[0]) && IsQuote(v[|v| - 1])
             && forall k :: 1 <= k < |v| - 1 ==> !IsLineTerminator(v[k])) ==> r == v[1..|v| - 1]
    ensures !(|v| >= 2 && IsQuote(v[0]) && IsQuote(v[|v| - 1])) ==> r == v
  {
    if |v| >= 2 && IsQuote(v[0]) && IsQuote(v[|v| - 1]) && forall k :: 1 <= k < |v| - 1 ==> !IsLineTerminator(v[k])
    then v[1..|v| - 1]
    else v
  }

  /**
   * One line of the `forEach`: skipped when blank after trimming or when it
   * starts with '#' at column 0; the key is the trimmed text before the first
   * '=', the value the rest rejoined with '=' and trimmed, then unquoted.
   */
  function JsEntry(line: string): Option<Entry> {
    if Blank(Js, line) || (line != [] && line[0] == '#') then None
    else
      var parts := Split(line, '=');
      Some(Entry(Trim(Js, parts[0]), JsUnquote(Trim(Js, Join(parts[1..], "=")))))
  }

  /** `valueParts.join('=')` is the whole text after the first '=', and '' without one. */
  lemma RejoinedValue(line: string)
    ensures '=' in line ==> Join(Split(line, '=')[1..], "=") == line[FirstIndex(line, '=') + 1..]
    ensures '=' !in line ==> Join(Split(line, '=')[1..], "=") == ""
    ensures '=' in line ==> Split(line, '=')[0] == line[..FirstIndex(line, '=')]
    ensures '=' !in line ==> Split(line, '=')[0] == line
  {
    if '=' in line {
      var i := FirstIndex(line, '=');
      assert Split(line, '=')[1..] == Split(line[i + 1..], '=');
      JoinSplit(line[i + 1..], '=');
    }
  }

  /**
   * The TypeScript reading of a line: blank lines and lines with '#' in
   * column 0 are skipped, an indented '#' line is not; a line without '='
   * gives the whole trimmed line as key and '' as value; '=' inside the value
   * is kept.
   */
  lemma JsEntryMeaning(line: string)
    ensures JsEntry(line).None? <==> Blank(Js, line) || (line != [] && line[0] == '#')
    ensures JsEntry(line).Some? && '=' in line ==>
      var i := FirstIndex(line, '=');
      JsEntry(line).value == Entry(Trim(Js, line[..i]), JsUnquote(Trim(Js, line[i + 1..])))
    ensures JsEntry(line).Some? && '=' !in line ==> JsEntry(line).value == Entry(Trim(Js, line), "")
  {
    RejoinedValue(line);
    assert Blank(Js, "");
  }

  const SkipList: seq<string> := ["PORT", "HOST", "LOG_LEVEL", "HF_TOKEN", "HF_REPO_ID"]

  /** `Object.keys(envConfig).filter(key => !skipList.includes(key))`. */
  function KeysToSync(order: seq<string>): (r: seq<string>)
    ensures forall k :: k in r <==> k in order && k !in SkipList
    ensures |r| <= |order|
  {
    if order == [] then []
    else (if order[0] in SkipList then [] else [order[0]]) + KeysToSync(order[1..])
  }

  /** An uploaded file: `secrets/<KEY>` holding the value. */
  datatype SecretFile = SecretFile(path: string, content: string)

  /** The `files` argument of `uploadFiles`. */
  function SecretFiles(config: Config, keys: seq<string>): (files: seq<SecretFile>)
    requires forall k :: k in keys ==> k in config.values
    ensures |files| == |keys|
    ensures forall i :: 0 <= i < |keys| ==> files[i] == SecretFile("secrets/" + keys[i], config.values[keys[i]])
  {
    seq(|keys|, i requires 0 <= i < |keys| => SecretFile("secrets/" + keys[i], config.values[keys[i]]))
  }

  /**
   * `run()`: `None` when the token or the repository id is missing or there
   * is no `.env`, otherwise the files handed to `uploadFiles`. The token and
   * id are the configured value or the answer to the prompt.
   */
  function SyncEnvFiles(token: string, repoId: string, envContent: Option<string>): (r: Option<seq<SecretFile>>)
  {
    if token == [] || repoId == [] || envContent.None? then None
    else
      var lines := Split(envContent.value, '\n');
      var config := Loaded(Parsed(lines, JsEntry));
      LoadedKeys(Parsed(lines, JsEntry));
      Some(SecretFiles(config, KeysToSync(config.order)))
  }

  /**
   * Nothing is uploaded without a token, a repository id and a `.env`;
   * otherwise there is one file per parsed key outside the skip list, each
   * key once, and none for the skipped keys.
   */
  lemma SyncEnvFilesMeaning(token: string, repoId: string, envContent: Option<string>)
    ensures SyncEnvFiles(token, repoId, envContent).None? <==> token == [] || repoId == [] || envContent.None?
    ensures SyncEnvFiles(token, repoId, envContent).Some? ==>
      var lines := Split(envContent.value, '\n');
      var config := Loaded(Parsed(lines, JsEntry));
      var files := SyncEnvFiles(token, repoId, envContent).value;
      && (forall k :: k in config.values && k !in SkipList <==> exists i :: 0 <= i < |files| && files[i].path == "secrets/" + k)
      && (forall i, j :: 0 <= i < j < |files| ==> files[i].path != files[j].path)
  {
    if token != [] && repoId != [] && envContent.Some? {
      var lines := Split(envContent.value, '\n');
      var entries := Parsed(lines, JsEntry);
      var config := Loaded(entries);
      LoadedKeys(entries);
      var keys := KeysToSync(config.order);
      KeysToSyncDistinct(config.order);
      SecretFilesPaths(config, keys);
    }
  }

  /** Distinct keys give distinct paths, one per key. */
  lemma SecretFilesPaths(config: Config, keys: seq<string>)
    requires forall k :: k in keys ==> k in config.values
    requires Distinct(keys)
    ensures var files := SecretFiles(config, keys);
      && (forall k :: k in keys <==> exists i :: 0 <= i < |files| && files[i].path == "secrets/" + k)
      && (forall i, j :: 0 <= i < j < |files| ==> files[i].path != files[j].path)
  {
    var files := SecretFiles(config, keys);
    forall k ensures k in keys <==> exists i :: 0 <= i < |files| && files[i].path == "secrets/" + k {
      if k in keys {
        var i :| 0 <= i < |keys| && keys[i] == k;
        assert files[i].path == "secrets/" + k;
      }
      if exists i :: 0 <= i < |files| && files[i].path == "secrets/" + k {
        var i :| 0 <= i < |files| && files[i].path == "secrets/" + k;
        SecretPathInjective(keys[i], k);
      }
    }
    forall i, j | 0 <= i < j < |files| ensures files[i].path != files[j].path {
      SecretPathInjective(keys[i], keys[j]);
    }
  }

  lemma SecretPathInjective(a: string, b: string)
    ensures "secrets/" + a == "secrets/" + b ==> a == b
  {
    assert ("secrets/" + a)[8..] == a;
    assert ("secrets/" + b)[8..] == b;
  }

  lemma {:induction false} KeysToSyncDistinct(order: seq<string>)
    requires Distinct(order)
    ensures Distinct(KeysToSync(order))
  {
    if order != [] {
      KeysToSyncDistinct(order[1..]);
      assert order[0] !in order[1..];
    }
  }

  /** `run()` as the command performs it, with the upload as a call that succeeds or not. */
  method SyncEnvToHf(token: string, repoId: string, envContent: Option<string>, uploadOk: bool)
    returns (uploaded: seq<SecretFile>)
    ensures uploaded == if SyncEnvFiles(token, repoId, envContent).Some? && uploadOk
                        then SyncEnvFiles(token, repoId, envContent).value else []
  {
    uploaded := [];
    if token == [] || repoId == [] {
      return;
    }
    if envContent.None? {
      return;
    }
    var lines := Split(envContent.value, '\n');
    var envConfig := Load(lines, JsEntry);
    LoadedKeys(Parsed(lines, JsEntry));
    var keysToSync := KeysToSync(envConfig.order);
    if uploadOk {
      uploaded := SecretFiles(envConfig, keysToSync);
    }
  }

  // ------------------------------------------------------------------ sync_hf_secrets.py

  /** `value[1:-1]` when both ends carry the same quote; a lone quote becomes ''. */
  function PyUnquote(v: string): (r: string)
    ensures |v| >= 2 && IsQuote(v[0]) && v[|v| - 1] == v[0] ==> r == v[1..|v| - 1]
    ensures !(|v| >= 1 && IsQuote(v[0]) && v[|v| - 1] == v[0]) ==> r == v
    ensures |v| == 1 && IsQuote(v[0]) ==> r == ""
  {
    if |v| >= 1 && IsQuote(v[0]) && v[|v| - 1] == v[0] then (if |v| >= 2 then v[1..|v| - 1] else "") else v
  }

  /**
   * One line of the `for line in f` loop: stripped; skipped when empty,
   * starting with '#' or without '='; split at the first '=', both sides
   * stripped, the value unquoted.
   */
  function PyEntry(line: string): (r: Option<Entry>)
    ensures r.Some? ==> '=' in line
  {
    var s := Trim(Py, line);
    if s == [] || s[0] == '#' || '=' !in s then None
    else
      var i := FirstIndex(s, '=');
      Some(Entry(Trim(Py, s[..i]), PyUnquote(Trim(Py, s[i + 1..]))))
  }

  /** An indented '#' line is a variable for the TypeScript parser and a comment for Python's. */
  lemma IndentedComment()
    ensures JsEntry(" #A=1").Some? && PyEntry(" #A=1") == None
  {
    assert !Blank(Js, " #A=1") by {
      assert !IsJsSpace(" #A=1"[1]);
    }
    assert Trim(Py, " #A=1")[0] == '#' by {
      assert LeadingSpaces(Py, " #A=1") == 1;
    }
  }

  /**
   * A non-blank, non-comment line without '=' is a variable with value '' in
   * TypeScript and ignored in Python.
   */
  lemma LineWithoutEquals(line: string)
    requires '=' !in line && !Blank(Js, line) && line[0] != '#'
    ensures JsEntry(line) == Some(Entry(Trim(Js, line), "")) && PyEntry(line) == None
  {
    JsEntryMeaning(line);
  }

  /** Mismatched quotes are removed by the TypeScript parser and kept by Python's. */
  lemma MismatchedQuotes()
    ensures JsUnquote("'x\"") == "x" && PyUnquote("'x\"") == "'x\""
  {
  }

  /** The script's outcome: the ValueError for a missing token, or the two counters and the keys tried. */
  datatype PyOutcome = MissingToken | Synced(successCount: nat, failureCount: nat, tried: seq<string>)

  /** How many of the first `n` calls succeeded. */
  function Successes(ok: seq<bool>, n: nat): nat
    requires n <= |ok|
  {
    if n == 0 then 0 else Successes(ok, n - 1) + (if ok[n - 1] then 1 else 0)
  }

  /**
   * The script: no token raises before anything is read or called;
   * otherwise one `add_space_secret` per key, in first-set order, whose
   * outcomes are `ok`, counted as successes and failures.
   */
  method SyncHfSecrets(token: Option<string>, lines: seq<string>, ok: seq<bool>) returns (out: PyOutcome)
    ensures token.None? || token.value == [] ==> out == MissingToken
    ensures token.Some? && token.value != [] ==>
      var config := Loaded(Parsed(lines, PyEntry));
      |ok| >= |config.order| ==>
        && out.Synced?
        && out.tried == config.order
        && out.successCount + out.failureCount == |config.values|
        && out.successCount == Successes(ok, |config.order|)
  {
    if token.None? || token.value == [] {
      return MissingToken;
    }
    var envVars := Load(lines, PyEntry);
    LoadedKeys(Parsed(lines, PyEntry));
    DistinctCard(envVars.order, envVars.values);
    var successCount, failureCount, tried := AddSecrets(envVars.order, ok);
    out := Synced(successCount, failureCount, tried);
  }

  /** The `for key, value in env_vars.items()` loop: one call per key, each counted once. */
  method AddSecrets(keys: seq<string>, ok: seq<bool>) returns (successCount: nat, failureCount: nat, tried: seq<string>)
    ensures tried == keys
    ensures successCount + failureCount == |keys|
    ensures |ok| >= |keys| ==> successCount == Successes(ok, |keys|)
  {
    successCount, failureCount, tried := 0, 0, [];
    for i := 0 to |keys|
      invariant tried == keys[..i]
      invariant successCount + failureCount == i
      invariant i <= |ok| ==> successCount == Successes(ok, i)
    {
      tried := tried + [keys[i]];
      assert keys[..i + 1] == keys[..i] + [keys[i]];
      if i < |ok| && ok[i] {
        successCount := successCount + 1;
      } else {
        failureCount := failureCount + 1;
      }
    }
    assert keys[..|keys|] == keys;
  }

  /** The keys listed once each number the dictionary's entries. */
  lemma DistinctCard(order: seq<string>, values: map<string, string>)
    requires Distinct(order) && forall k :: k in values <==> k in order
    ensures |values| == |order|
  {
    assert values.Keys == set k | k in order;
    DistinctSetSize(order);
  }

  lemma {:induction false} DistinctSetSize(s: seq<string>)
    requires Distinct(s)
    ensures |set k | k in s| == |s|
  {
    if s != [] {
      var n := |s| - 1;
      DistinctSetSize(s[..n]);
      assert (set k | k in s) == (set k | k in s[..n]) + {s[n]};
      assert s[n] !in s[..n];
    }
  }
}
