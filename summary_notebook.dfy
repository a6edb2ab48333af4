/**
 * The Python summary pipeline that the notebook generator emits into its
 * cells: a model chain tried round-robin, the JSON clean-up and shape check
 * of the reply, `clean_html`, the case-detail composer, the
 * `(case_id, lang)` upsert of `case_summaries`, and the runner that ties
 * them together and closes the connection once.
 *
 * The HTTP call for attempt `i` with a model is `reply(model, i)` (`None`
 * when the request, `raise_for_status` or the candidate lookup raised);
 * `json.loads` is `parse` (`None` when it raised).
 */
module SummaryNotebook {
  import opened Text
  import opened Json

  const NotebookModels: seq<string> :=
    ["models/gemini-1.5-flash-latest", "models/gemini-1.5-pro-latest", "models/gemini-1.0-pro-latest"]

  /** Python truthiness of a parsed value: empty containers are false too. */
  predicate PyTruthy(j: Json) {
    match j
    case JNull => false
    case JBool(b) => b
    case JNum(n) => n != 0
    case JStr(s) => s != []
    case JArr(items) => items != []
    case JObj(fields) => fields != map[]
  }

  // ------------------------------------------------------------------ reply clean-up

  /**
   * `re.sub(r'^.*?\[', '[', text, flags=re.DOTALL)`: everything before the
   * first '[' goes; without a '[' the text is kept.
   */
  function DropBeforeBracket(t: string): (r: string)
    ensures '[' !in t ==> r == t
    ensures '[' in t ==> r != [] && r[0] == '[' && exists j :: 0 <= j < |t| && r == t[j..] && '[' !in t[..j]
  {
    if '[' !in t then t
    else
      var j := FirstIndex(t, '[');
      t[j..]
  }

  /**
   * `re.sub(r'\].*?$', ']', text, flags=re.DOTALL)`: the lazy `.*?` stops
   * at the first place `$` holds, the very end or just before a final
   * newline, so everything after the first ']' goes except that newline.
   */
  function DropAfterBracket(t: string): (r: string)
    ensures ']' !in t ==> r == t
    ensures ']' in t ==>
      exists i :: 0 <= i < |t| && t[i] == ']' && ']' !in t[..i]
        && r == t[..i + 1] + (if t[|t| - 1] == '\n' && i < |t| - 1 then "\n" else "")
  {
    if ']' !in t then t
    else
      var i := FirstIndex(t, ']');
      t[..i + 1] + (if t[|t| - 1] == '\n' && i < |t| - 1 then "\n" else "")
  }

  /** Both substitutions, in the order the code applies them. */
  function CleanReply(t: string): (r: string)
    ensures '[' in t ==> r != [] && r[0] == '['
    ensures ']' in r ==> ']' !in r[..|r| - 1] || (r[|r| - 1] == '\n' && ']' !in r[..|r| - 2])
  {
    var a := DropBeforeBracket(t);
    CleanReplyShape(t, a);
    DropAfterBracket(a)
  }

  lemma CleanReplyShape(t: string, a: string)
    requires a == DropBeforeBracket(t)
    ensures '[' in t ==> DropAfterBracket(a) != [] && DropAfterBracket(a)[0] == '['
    ensures var r := DropAfterBracket(a);
      ']' in r ==> ']' !in r[..|r| - 1] || (r[|r| - 1] == '\n' && ']' !in r[..|r| - 2])
  {
    var r := DropAfterBracket(a);
    if ']' in a {
      var i := FirstIndex(a, ']');
      assert r[..i] == a[..i];
      if '[' in t {
        assert i > 0;
      }
    }
  }

  /** A ']' inside a summary cuts the array short: the reply `["a]b"]` becomes `["a]`, which does not parse. */
  lemma BracketInSummaryTruncates()
    ensures CleanReply("[\"a]b\"]") == "[\"a]"
  {
    var t := "[\"a]b\"]";
    assert t[..0] == [];
    FirstIndexAt(t, '[', 0);
    assert t[0..] == t;
    assert t[..3] == "[\"a";
    FirstIndexAt(t, ']', 3);
  }

  // ------------------------------------------------------------------ validation

  /** One entry of an accepted reply: a dict with a known `lang` and a truthy `summary`. */
  predicate EntryOk(e: Json) {
    && e.JObj? && "lang" in e.fields && "summary" in e.fields
    && e.fields["lang"] in [JStr("zh"), JStr("en"), JStr("es")]
    && PyTruthy(e.fields["summary"])
  }

  /**
   * The checks after `json.loads`: `len(summaries) == 3` and every entry
   * passes.  Only a list can pass: iterating a dict or a str yields strings,
   * and indexing a string with 'lang' raises; `len` of a number raises.
   */
  predicate Accepted(v: Json) {
    v.JArr? && |v.items| == 3 && forall k :: 0 <= k < 3 ==> EntryOk(v.items[k])
  }

  /** The `for summary in summaries` loop; `ok` is false exactly where the code raises. */
  method ValidateSummaries(v: Json) returns (ok: bool)
    ensures ok <==> Accepted(v)
  {
    if !v.JArr? || |v.items| != 3 {
      return false;
    }
    var k := 0;
    while k < 3
      invariant 0 <= k <= 3
      invariant forall m :: 0 <= m < k ==> EntryOk(v.items[m])
    {
      var e := v.items[k];
      if !e.JObj? || "lang" !in e.fields || e.fields["lang"] !in [JStr("zh"), JStr("en"), JStr("es")] {
        return false;
      }
      if "summary" !in e.fields || !PyTruthy(e.fields["summary"]) {
        return false;
      }
      k := k + 1;
    }
    return true;
  }

  /** Duplicate language codes are not rejected: three 'zh' entries pass. */
  lemma DuplicateLanguagesAccepted()
    ensures Accepted(JArr([Entry("zh"), Entry("zh"), Entry("zh")]))
  {
    assert Entry("zh").fields["lang"] == JStr("zh");
  }

  function Entry(lang: string): Json {
    JObj(map["lang" := JStr(lang), "summary" := JStr("text")])
  }

  /** The try block of one attempt: a reply that parses after clean-up and passes the checks. */
  function AttemptOk(text: Option<string>, parse: string -> Option<Json>): (r: Option<Json>)
    ensures r.Some? ==> Accepted(r.value)
  {
    match text
    case None => None
    case Some(t) =>
      match parse(CleanReply(t))
      case None => None
      case Some(v) => if Accepted(v) then Some(v) else None
  }

  // ------------------------------------------------------------------ generateMultiLangSummary

  datatype GenResult = Returned(summaries: Option<Json>) | Raised

  /** The model for attempt `i`: round-robin over the three models. */
  function ModelAt(i: nat): string {
    NotebookModels[i % |NotebookModels|]
  }

  /** Attempt `i`, made with the model `ModelAt(i)`; `None` where its try block raises. */
  function Try(reply: (string, nat) -> Option<string>, parse: string -> Option<Json>, i: nat): (r: Option<Json>)
    ensures r.Some? ==> Accepted(r.value)
  {
    AttemptOk(reply(ModelAt(i), i), parse)
  }

  /**
   * Attempts `i` onwards: the first accepted reply is returned, a failure on
   * the last attempt re-raises, and a loop that never runs falls through to
   * `None`.
   */
  function GenerateFrom(i: nat, maxRetries: int, reply: (string, nat) -> Option<string>,
                        parse: string -> Option<Json>): GenResult
    decreases maxRetries - i
  {
    if i >= maxRetries then Returned(None)
    else match Try(reply, parse, i)
      case Some(v) => Returned(Some(v))
      case None => if i == maxRetries - 1 then Raised else GenerateFrom(i + 1, maxRetries, reply, parse)
  }

  /** `None` comes back only from a loop that never ran. */
  lemma {:induction false} GenerateNone(i: nat, maxRetries: int, reply: (string, nat) -> Option<string>,
                                        parse: string -> Option<Json>)
    ensures GenerateFrom(i, maxRetries, reply, parse) == Returned(None) <==> i >= maxRetries
    decreases maxRetries - i
  {
    if i < maxRetries - 1 && Try(reply, parse, i).None? {
      GenerateNone(i + 1, maxRetries, reply, parse);
    }
  }

  /** The loop raises exactly when it ran and every attempt failed. */
  lemma {:induction false} GenerateRaised(i: nat, maxRetries: int, reply: (string, nat) -> Option<string>,
                                          parse: string -> Option<Json>)
    ensures GenerateFrom(i, maxRetries, reply, parse).Raised?
      <==> i < maxRetries && forall j: nat :: i <= j < maxRetries ==> Try(reply, parse, j).None?
    decreases maxRetries - i
  {
    if i < maxRetries - 1 && Try(reply, parse, i).None? {
      GenerateRaised(i + 1, maxRetries, reply, parse);
    }
  }

  /** A returned reply is accepted, and it is the first accepted one. */
  lemma {:induction false} GenerateReturned(i: nat, maxRetries: int, reply: (string, nat) -> Option<string>,
                                            parse: string -> Option<Json>)
    ensures var r := GenerateFrom(i, maxRetries, reply, parse);
      r.Returned? && r.summaries.Some? ==>
        && Accepted(r.summaries.value)
        && exists j: nat :: i <= j < maxRetries && Try(reply, parse, j) == r.summaries
                            && forall m: nat :: i <= m < j ==> Try(reply, parse, m).None?
    decreases maxRetries - i
  {
    var r := GenerateFrom(i, maxRetries, reply, parse);
    if i < maxRetries && Try(reply, parse, i).Some? {
      assert Try(reply, parse, i) == r.summaries;
    } else if i < maxRetries - 1 {
      GenerateReturned(i + 1, maxRetries, reply, parse);
      assert r == GenerateFrom(i + 1, maxRetries, reply, parse);
      if r.Returned? && r.summaries.Some? {
        var j: nat :| i + 1 <= j < maxRetries && Try(reply, parse, j) == r.summaries
                      && forall m: nat :: i + 1 <= m < j ==> Try(reply, parse, m).None?;
        assert forall m: nat :: i <= m < j ==> Try(reply, parse, m).None?;
      }
    }
  }

  /**
   * `generateMultiLangSummary(details, max_retries)`, with `reply` already
   * bound to `details`.  `models` lists the model used by each attempt.
   */
  method GenerateMultiLangSummary(maxRetries: int, reply: (string, nat) -> Option<string>,
                                  parse: string -> Option<Json>)
    returns (r: GenResult, models: seq<string>)
    ensures r == GenerateFrom(0, maxRetries, reply, parse)
    ensures maxRetries <= 0 ==> models == []
    ensures maxRetries > 0 ==> 1 <= |models| <= maxRetries
    ensures models == ModelsTried(|models|)
    ensures r.Raised? ==> |models| == maxRetries
  {
    models := [];
    var i: nat := 0;
    while i < maxRetries
      invariant i == 0 || i < maxRetries
      invariant |models| == i
      invariant models == ModelsTried(i)
      invariant GenerateFrom(0, maxRetries, reply, parse) == GenerateFrom(i, maxRetries, reply, parse)
    {
      var modelName := ModelAt(i);
      assert ModelsTried(i + 1) == ModelsTried(i) + [modelName];
      models := models + [modelName];
      var accepted := Attempt(reply(modelName, i), parse);
      assert accepted == Try(reply, parse, i);
      GenerateUnfold(i, maxRetries, reply, parse);
      if accepted.Some? {
        return Returned(accepted), models;
      }
      if i == maxRetries - 1 {
        return Raised, models;
      }
      i := i + 1;
    }
    r := Returned(None);
  }

  lemma GenerateUnfold(i: nat, maxRetries: int, reply: (string, nat) -> Option<string>, parse: string -> Option<Json>)
    requires i < maxRetries
    ensures var a := Try(reply, parse, i);
      GenerateFrom(i, maxRetries, reply, parse)
        == if a.Some? then Returned(a) else if i == maxRetries - 1 then Raised else GenerateFrom(i + 1, maxRetries, reply, parse)
  {
  }

  /** The try block of one attempt: clean the reply, `json.loads` it, validate it. */
  method Attempt(text: Option<string>, parse: string -> Option<Json>) returns (accepted: Option<Json>)
    ensures accepted == AttemptOk(text, parse)
  {
    if text.None? {
      return None;
    }
    var parsed := parse(CleanReply(text.value));
    if parsed.None? {
      return None;
    }
    var ok := ValidateSummaries(parsed.value);
    accepted := if ok then parsed else None;
  }

  /** The models of the first `n` attempts, in attempt order. */
  function ModelsTried(n: nat): (r: seq<string>)
    ensures |r| == n
  {
    if n == 0 then [] else ModelsTried(n - 1) + [ModelAt(n - 1)]
  }

  /** Attempt `k` uses the model at `k mod 3`. */
  lemma {:induction false} ModelsTriedRoundRobin(n: nat)
    ensures forall k :: 0 <= k < n ==> ModelsTried(n)[k] == NotebookModels[k % 3]
  {
    if n > 0 {
      ModelsTriedRoundRobin(n - 1);
    }
  }

  /** With three retries the models are tried in list order; with five the list wraps after the third. */
  lemma RoundRobin()
    ensures ModelsTried(3) == NotebookModels
    ensures ModelsTried(5) == NotebookModels + NotebookModels[..2]
  {
    ModelsTriedRoundRobin(5);
    assert ModelsTried(5)[..3] == ModelsTried(3);
  }

  // ------------------------------------------------------------------ clean_html

  /**
   * No '<' is followed by a character other than '>' and, later, by a '>':
   * nothing `<[^>]+>` could match is left.
   */
  predicate NoTag(s: string)
    decreases |s|
  {
    s == [] || ((s[0] == '<' && |s| >= 2 && s[1] != '>' ==> '>' !in s[1..]) && NoTag(s[1..]))
  }

  /** `re.sub(r'<[^>]+>', '', html)`: every tag with at least one character inside is deleted. */
  function StripTags(s: string): (r: string)
    ensures NoTag(r)
    ensures '>' in r ==> '>' in s
    ensures s != [] && s[0] != '<' ==> r != [] && r[0] == s[0]
    ensures s != [] && s[0] == '<' && (|s| < 2 || s[1] == '>' || '>' !in s[1..]) ==> r != [] && r[0] == '<'
    ensures '<' !in s || '>' !in s ==> r == s
    decreases |s|
  {
    if s == [] then []
    else if s[0] == '<' && |s| >= 2 && s[1] != '>' && '>' in s[1..] then
      var i := FirstIndex(s[1..], '>');
      StripTags(s[i + 2..])
    else
      var rest := StripTags(s[1..]);
      assert |s| >= 2 && s[1] == '>' ==> rest != [] && rest[0] == '>';
      [s[0]] + rest
  }

  /** Text before the first '<' is kept as it is. */
  lemma {:induction false} StripTagsText(a: string, b: string)
    requires '<' !in a
    ensures StripTags(a + b) == a + StripTags(b)
  {
    if a != [] {
      var s := a + b;
      assert s[0] == a[0] && s[0] != '<';
      assert s[1..] == a[1..] + b;
      StripTagsText(a[1..], b);
      assert StripTags(s) == [s[0]] + StripTags(s[1..]);
      assert a == [a[0]] + a[1..];
    } else {
      assert a + b == b;
    }
  }

  /** A tag with something inside, from '<' to the first '>' after it, is deleted. */
  lemma StripTagsTag(m: string, b: string)
    requires m != [] && '>' !in m
    ensures StripTags(['<'] + m + ['>'] + b) == StripTags(b)
  {
    var s := ['<'] + m + ['>'] + b;
    assert s[1..] == m + ['>'] + b;
    assert s[1] == m[0];
    assert s[1..][|m|] == '>' && s[1..][..|m|] == m;
    FirstIndexAt(s[1..], '>', |m|);
    assert s[|m| + 2..] == b;
  }

  /**
   * `clean_html`: `None` and '' give ''; otherwise tags are deleted, each
   * whitespace run becomes one space and both ends are stripped.
   */
  function CleanHtml(html: Option<string>): (r: string)
    ensures html.None? || html == Some([]) ==> r == []
    ensures Normalised(Py, r)
    ensures html.Some? ==> NonSpace(Py, r) == NonSpace(Py, StripTags(html.value))
    ensures html.Some? ==> Gaps(Py, r) == Gaps(Py, StripTags(html.value))
  {
    if html.None? || html.value == [] then []
    else
      SqueezeKeepsGaps(Py, StripTags(html.value));
      Squeeze(Py, StripTags(html.value))
  }

  // ------------------------------------------------------------------ get_case_details

  /** The columns of a `get_cases_to_process` row that the composer reads; `None` is NULL. */
  datatype CaseRecord = CaseRecord(id: int, title: Option<string>, description: Option<string>,
                                   content: Option<string>, caseNumber: Option<string>,
                                   keywords: Option<string>, address: Option<string>,
                                   details: Option<string>)

  /** Some column of the case is non-NULL and non-empty. */
  predicate HasDetails(c: CaseRecord) {
    Given(c.title) || Given(c.description) || Given(c.content) || Given(c.caseNumber)
    || Given(c.keywords) || Given(c.address) || Given(c.details)
  }

  /** The labels of the detail lines (title, description, content, case number, keywords, address, details). */
  const TitleLabel: string := "标题: "
  const DescriptionLabel: string := "描述: "
  const ContentLabel: string := "详细内容: "
  const CaseNumberLabel: string := "案件编号: "
  const KeywordsLabel: string := "关键词: "
  const AddressLabel: string := "地址: "
  const DetailsLabel: string := "案件详情: "

  /** The line for one column: the label and the value, when the value is non-empty. */
  function LineFor(tag: string, v: Option<string>): (r: seq<string>)
    ensures |r| <= 1 && (r != [] <==> Given(v))
    ensures Given(v) ==> r[0] == tag + v.value
  {
    if Given(v) then [tag + v.value] else []
  }

  /** Like `LineFor`, for a column that goes through `clean_html` first. */
  function CleanedLineFor(tag: string, v: Option<string>): (r: seq<string>)
    ensures |r| <= 1 && (r != [] <==> Given(v))
    ensures Given(v) ==> r[0] == tag + CleanHtml(v)
  {
    if Given(v) then [tag + CleanHtml(v)] else []
  }

  /** The labelled lines of a case, in the fixed column order. */
  function DetailLines(c: CaseRecord): (r: seq<string>)
    ensures |r| <= 7
  {
    LineFor(TitleLabel, c.title) + LineFor(DescriptionLabel, c.description)
      + CleanedLineFor(ContentLabel, c.content) + LineFor(CaseNumberLabel, c.caseNumber)
      + LineFor(KeywordsLabel, c.keywords) + LineFor(AddressLabel, c.address)
      + CleanedLineFor(DetailsLabel, c.details)
  }

  predicate NonEmptyLines(s: seq<string>) { forall k :: 0 <= k < |s| ==> s[k] != [] }

  /** An optional line: at most one, non-empty, present exactly when `given`. */
  predicate OptLine(l: seq<string>, given: bool) {
    |l| <= 1 && (l != [] <==> given) && (given ==> l[0] != [])
  }

  /** Lines so far: each non-empty, and none exactly when no column so far was given. */
  predicate LinesSoFar(r: seq<string>, any: bool) {
    NonEmptyLines(r) && (r == [] <==> !any)
  }

  /** Appending one optional line. */
  lemma AppendLine(r: seq<string>, any: bool, l: seq<string>, given: bool)
    requires LinesSoFar(r, any) && OptLine(l, given)
    ensures LinesSoFar(r + l, any || given)
    ensures r != [] ==> (r + l)[0] == r[0]
  {
  }

  /**
   * One line per non-empty column, each non-empty: none at all exactly when
   * every column is NULL or empty, and the title first when it is given.
   */
  lemma DetailLinesShape(c: CaseRecord)
    ensures var r := DetailLines(c);
      && (r == [] <==> !HasDetails(c))
      && NonEmptyLines(r)
      && (Given(c.title) ==> r[0] == TitleLabel + c.title.value)
  {
    var r1 := LineFor(TitleLabel, c.title);
    var g1 := Given(c.title);
    var l2, l3 := LineFor(DescriptionLabel, c.description), CleanedLineFor(ContentLabel, c.content);
    var l4, l5 := LineFor(CaseNumberLabel, c.caseNumber), LineFor(KeywordsLabel, c.keywords);
    var l6, l7 := LineFor(AddressLabel, c.address), CleanedLineFor(DetailsLabel, c.details);
    var g2 := g1 || Given(c.description);
    var g3 := g2 || Given(c.content);
    var g4 := g3 || Given(c.caseNumber);
    var g5 := g4 || Given(c.keywords);
    var g6 := g5 || Given(c.address);
    var g7 := g6 || Given(c.details);
    AppendLine([], false, r1, g1);
    assert [] + r1 == r1;
    AppendLine(r1, g1, l2, Given(c.description));
    var r2 := r1 + l2;
    AppendLine(r2, g2, l3, Given(c.content));
    var r3 := r2 + l3;
    AppendLine(r3, g3, l4, Given(c.caseNumber));
    var r4 := r3 + l4;
    AppendLine(r4, g4, l5, Given(c.keywords));
    var r5 := r4 + l5;
    AppendLine(r5, g5, l6, Given(c.address));
    var r6 := r5 + l6;
    AppendLine(r6, g6, l7, Given(c.details));
    var r7 := r6 + l7;
    assert DetailLines(c) == r7;
  }

  /** The cleaned content is among the lines whenever the content is given. */
  lemma DetailContentLine(c: CaseRecord)
    ensures Given(c.content) ==> ContentLabel + CleanHtml(c.content) in DetailLines(c)
  {
    if Given(c.content) {
      var l3 := CleanedLineFor(ContentLabel, c.content);
      assert l3[0] in l3;
      InThird(LineFor(TitleLabel, c.title), LineFor(DescriptionLabel, c.description), l3,
              LineFor(CaseNumberLabel, c.caseNumber), LineFor(KeywordsLabel, c.keywords),
              LineFor(AddressLabel, c.address), CleanedLineFor(DetailsLabel, c.details), l3[0]);
    }
  }

  lemma InThird<T>(l1: seq<T>, l2: seq<T>, l3: seq<T>, l4: seq<T>, l5: seq<T>, l6: seq<T>, l7: seq<T>, x: T)
    requires x in l3
    ensures x in l1 + l2 + l3 + l4 + l5 + l6 + l7
  {
    var i :| 0 <= i < |l3| && l3[i] == x;
    assert (l1 + l2 + l3 + l4 + l5 + l6 + l7)[|l1| + |l2| + i] == x;
  }

  /** `get_case_details`: one labelled line per non-empty column, joined with '\n'. */
  method GetCaseDetails(c: CaseRecord) returns (r: string)
    ensures r == Join(DetailLines(c), "\n")
  {
    var parts := AddLine([], TitleLabel, c.title);
    assert parts == LineFor(TitleLabel, c.title);
    parts := AddLine(parts, DescriptionLabel, c.description);
    parts := AddCleanedLine(parts, ContentLabel, c.content);
    parts := AddLine(parts, CaseNumberLabel, c.caseNumber);
    parts := AddLine(parts, KeywordsLabel, c.keywords);
    parts := AddLine(parts, AddressLabel, c.address);
    parts := AddCleanedLine(parts, DetailsLabel, c.details);
    r := Join(parts, "\n");
  }

  /** `if value: parts.append(f"{label}{value}")`. */
  method AddLine(parts: seq<string>, tag: string, v: Option<string>) returns (r: seq<string>)
    ensures r == parts + LineFor(tag, v)
  {
    r := parts;
    if Given(v) {
      r := r + [tag + v.value];
    }
  }

  /** The same for a column that goes through `clean_html` first. */
  method AddCleanedLine(parts: seq<string>, tag: string, v: Option<string>) returns (r: seq<string>)
    ensures r == parts + CleanedLineFor(tag, v)
  {
    r := parts;
    if Given(v) {
      var cleaned := CleanHtml(v);
      r := r + [tag + cleaned];
    }
  }

  /** Joining non-empty lines gives '' only for no lines at all. */
  lemma {:induction false} JoinEmpty(parts: seq<string>, sep: string)
    requires NonEmptyLines(parts)
    ensures Join(parts, sep) == [] <==> parts == []
  {
    if |parts| >= 2 {
      assert |Join(parts, sep)| >= |parts[0]|;
    }
  }

  /**
   * The composed details are empty exactly when every column is NULL or
   * empty; a non-empty content column gives a line even when cleaning
   * leaves nothing of it.
   */
  lemma DetailsEmptyIff(c: CaseRecord)
    ensures Join(DetailLines(c), "\n") == [] <==> !HasDetails(c)
  {
    DetailLinesShape(c);
    JoinEmpty(DetailLines(c), "\n");
  }

  // ------------------------------------------------------------------ DatabaseService

  /** A `case_summaries` row; `NOW()` is the clock value passed in. */
  datatype SummaryRecord = SummaryRecord(summary: Json, createdAt: int, updatedAt: int)

  /** The upsert of `save_summary`, keyed by the unique `(case_id, lang)`. */
  function Upsert(rows: map<(int, Json), SummaryRecord>, caseId: int, lang: Json, summary: Json, now: int)
    : (r: map<(int, Json), SummaryRecord>)
    ensures r.Keys == rows.Keys + {(caseId, lang)}
    ensures r[(caseId, lang)].summary == summary && r[(caseId, lang)].updatedAt == now
    ensures (caseId, lang) in rows ==> r[(caseId, lang)].createdAt == rows[(caseId, lang)].createdAt
    ensures forall k :: k in rows && k != (caseId, lang) ==> r[k] == rows[k]
  {
    if (caseId, lang) in rows then
      rows[(caseId, lang) := rows[(caseId, lang)].(summary := summary, updatedAt := now)]
    else
      rows[(caseId, lang) := SummaryRecord(summary, now, now)]
  }

  /** A second save of the same pair leaves one row, with the later summary and time. */
  lemma UpsertTwice(rows: map<(int, Json), SummaryRecord>, caseId: int, lang: Json, s1: Json, s2: Json,
                    t1: int, t2: int)
    ensures var once := Upsert(rows, caseId, lang, s1, t1);
      var twice := Upsert(once, caseId, lang, s2, t2);
      && twice.Keys == once.Keys
      && twice[(caseId, lang)] == SummaryRecord(s2, once[(caseId, lang)].createdAt, t2)
  {
  }

  class DatabaseService {
    var rows: map<(int, Json), SummaryRecord>
    var open: bool
    var closes: nat

    constructor (rows0: map<(int, Json), SummaryRecord>)
      ensures rows == rows0 && open && closes == 0
    {
      rows := rows0;
      open := true;
      closes := 0;
    }

    /** `save_summary`: upsert, then commit. */
    method SaveSummary(caseId: int, lang: Json, summary: Json, now: int)
      modifies this
      ensures rows == Upsert(old(rows), caseId, lang, summary, now)
      ensures open == old(open) && closes == old(closes)
    {
      rows := Upsert(rows, caseId, lang, summary, now);
    }

    /** `close`. */
    method Close()
      modifies this
      ensures !open && closes == old(closes) + 1 && rows == old(rows)
    {
      open := false;
      closes := closes + 1;
    }
  }

  // ------------------------------------------------------------------ run

  /**
   * The saves of one case's accepted entries from position `from` on, in
   * order; the first failing save raises, which skips the rest of that case.
   */
  function SaveEntries(rows: map<(int, Json), SummaryRecord>, caseId: int, entries: seq<Json>, from: nat,
                       saveFails: (int, int) -> bool, now: int): (r: map<(int, Json), SummaryRecord>)
    requires from <= |entries|
    requires forall k :: 0 <= k < |entries| ==> EntryOk(entries[k])
    ensures rows.Keys <= r.Keys
    ensures forall key :: key in r && key.0 != caseId ==> key in rows && r[key] == rows[key]
    decreases |entries| - from
  {
    if from == |entries| || saveFails(caseId, from) then rows
    else
      assert EntryOk(entries[from]);
      var e := entries[from].fields;
      SaveEntries(Upsert(rows, caseId, e["lang"], e["summary"], now), caseId, entries, from + 1, saveFails, now)
  }

  /** The `lang` of an entry, `null` when it has none. */
  function LangOf(e: Json): Json {
    if e.JObj? && "lang" in e.fields then e.fields["lang"] else JNull
  }

  /** Entry `k` is the last of `entries` with its language. */
  predicate LastOfLang(entries: seq<Json>, k: nat)
    requires k < |entries|
  {
    forall j :: k < j < |entries| ==> LangOf(entries[j]) != LangOf(entries[k])
  }

  /**
   * With no failing save, every accepted entry's language ends up holding a
   * summary of the case: that of the last entry with the language.
   */
  lemma {:induction false} SaveEntriesStores(rows: map<(int, Json), SummaryRecord>, caseId: int, entries: seq<Json>,
                                             from: nat, saveFails: (int, int) -> bool, now: int)
    requires from <= |entries|
    requires forall k :: 0 <= k < |entries| ==> EntryOk(entries[k])
    requires forall k :: from <= k < |entries| ==> !saveFails(caseId, k)
    ensures forall k :: from <= k < |entries| && EntryOk(entries[k]) ==>
      (caseId, entries[k].fields["lang"]) in SaveEntries(rows, caseId, entries, from, saveFails, now)
    ensures forall k :: from <= k < |entries| && LastOfLang(entries, k) ==>
      var r := SaveEntries(rows, caseId, entries, from, saveFails, now);
      (caseId, LangOf(entries[k])) in r && r[(caseId, LangOf(entries[k]))].summary == entries[k].fields["summary"]
    decreases |entries| - from
  {
    if from < |entries| {
      assert EntryOk(entries[from]);
      var e := entries[from].fields;
      var next := Upsert(rows, caseId, e["lang"], e["summary"], now);
      SaveEntriesStores(next, caseId, entries, from + 1, saveFails, now);
      if LastOfLang(entries, from) {
        SaveEntriesUntouched(next, caseId, entries, from + 1, saveFails, now, e["lang"]);
      }
      forall k | from < k < |entries| && LastOfLang(entries, k)
        ensures var r := SaveEntries(rows, caseId, entries, from, saveFails, now);
          (caseId, LangOf(entries[k])) in r && r[(caseId, LangOf(entries[k]))].summary == entries[k].fields["summary"]
      {
      }
    }
  }

  /** Saving entries none of which has language `lang` leaves the case's row for `lang` as it was. */
  lemma {:induction false} SaveEntriesUntouched(rows: map<(int, Json), SummaryRecord>, caseId: int, entries: seq<Json>,
                                                from: nat, saveFails: (int, int) -> bool, now: int, lang: Json)
    requires from <= |entries|
    requires forall k :: 0 <= k < |entries| ==> EntryOk(entries[k])
    requires forall k :: from <= k < |entries| ==> LangOf(entries[k]) != lang
    requires (caseId, lang) in rows
    ensures var r := SaveEntries(rows, caseId, entries, from, saveFails, now);
      (caseId, lang) in r && r[(caseId, lang)] == rows[(caseId, lang)]
    decreases |entries| - from
  {
    if from < |entries| && !saveFails(caseId, from) {
      assert EntryOk(entries[from]);
      var e := entries[from].fields;
      var next := Upsert(rows, caseId, e["lang"], e["summary"], now);
      assert LangOf(entries[from]) == e["lang"];
      SaveEntriesUntouched(next, caseId, entries, from + 1, saveFails, now, lang);
    }
  }

  /**
   * The body of the `for` loop for one case: empty details skip it (they are
   * empty exactly when no column is given, by `DetailsEmptyIff`), a
   * generation that raises is caught.
   */
  function CaseStep(rows: map<(int, Json), SummaryRecord>, c: CaseRecord,
                    reply: (int, string, nat) -> Option<string>, parse: string -> Option<Json>,
                    saveFails: (int, int) -> bool, now: int): (r: map<(int, Json), SummaryRecord>)
    ensures rows.Keys <= r.Keys
    ensures forall key :: key in r && key.0 != c.id ==> key in rows && r[key] == rows[key]
    ensures !HasDetails(c) ==> r == rows
  {
    if !HasDetails(c) then rows
    else match GenerateFrom(0, 3, (m: string, i: nat) => reply(c.id, m, i), parse)
      case Returned(Some(v)) => SaveEntries(rows, c.id, v.items, 0, saveFails, now)
      case _ => rows
  }

  /** What `run` does to the table, case by case from position `from` on. */
  function RunCases(rows: map<(int, Json), SummaryRecord>, cases: seq<CaseRecord>, from: nat,
                    reply: (int, string, nat) -> Option<string>, parse: string -> Option<Json>,
                    saveFails: (int, int) -> bool, now: int): (r: map<(int, Json), SummaryRecord>)
    requires from <= |cases|
    ensures rows.Keys <= r.Keys
    ensures forall key :: key in r && (forall k :: from <= k < |cases| ==> cases[k].id != key.0) ==>
      key in rows && r[key] == rows[key]
    decreases |cases| - from
  {
    if from == |cases| then rows
    else RunCases(CaseStep(rows, cases[from], reply, parse, saveFails, now), cases, from + 1, reply, parse, saveFails, now)
  }

  /**
   * `run`: the cases are a parameter (`None` when the query raised).  The
   * connection is closed exactly once, whatever happens; `generated` lists
   * the ids of the cases whose details were sent to the model.
   */
  method Run(db: DatabaseService, cases: Option<seq<CaseRecord>>, reply: (int, string, nat) -> Option<string>,
             parse: string -> Option<Json>, saveFails: (int, int) -> bool, now: int)
    returns (raised: bool, generated: seq<int>)
    modifies db
    ensures raised <==> cases.None?
    ensures db.closes == old(db.closes) + 1 && !db.open
    ensures cases.None? ==> db.rows == old(db.rows)
    ensures cases.Some? ==> db.rows == RunCases(old(db.rows), cases.value, 0, reply, parse, saveFails, now)
    ensures cases.Some? ==> generated == SentIds(cases.value)
  {
    generated := [];
    if cases.None? {
      db.Close();
      return true, generated;
    }
    var cs := cases.value;
    var i := 0;
    while i < |cs|
      invariant 0 <= i <= |cs|
      invariant RunCases(old(db.rows), cs, 0, reply, parse, saveFails, now)
                == RunCases(db.rows, cs, i, reply, parse, saveFails, now)
      invariant db.closes == old(db.closes) && db.open == old(db.open)
      invariant generated == SentIds(cs[..i])
    {
      ghost var before := db.rows;
      var sent := ProcessCase(db, cs[i], reply, parse, saveFails, now);
      assert RunCases(before, cs, i, reply, parse, saveFails, now)
          == RunCases(db.rows, cs, i + 1, reply, parse, saveFails, now);
      if sent {
        generated := generated + [cs[i].id];
      }
      assert cs[..i + 1][..i] == cs[..i];
      i := i + 1;
    }
    assert cs[..|cs|] == cs;
    db.Close();
    raised := false;
  }

  /** The ids of the cases whose details were sent to the model, in case order. */
  function SentIds(cases: seq<CaseRecord>): seq<int> {
    if cases == [] then []
    else
      var last := cases[|cases| - 1];
      SentIds(cases[..|cases| - 1]) + (if HasDetails(last) then [last.id] else [])
  }

  /** A case id is sent exactly when some case with that id has a non-empty column. */
  lemma {:induction false} SentIdsExact(cases: seq<CaseRecord>)
    ensures forall id :: id in SentIds(cases) <==>
      exists k :: 0 <= k < |cases| && cases[k].id == id && HasDetails(cases[k])
  {
    if cases != [] {
      var init, last := cases[..|cases| - 1], cases[|cases| - 1];
      SentIdsExact(init);
      forall id | id in SentIds(cases)
        ensures exists k :: 0 <= k < |cases| && cases[k].id == id && HasDetails(cases[k])
      {
        if id in SentIds(init) {
          var k :| 0 <= k < |init| && init[k].id == id && HasDetails(init[k]);
          assert cases[k] == init[k];
        } else {
          assert cases[|cases| - 1].id == id;
        }
      }
      forall id | exists k :: 0 <= k < |cases| && cases[k].id == id && HasDetails(cases[k])
        ensures id in SentIds(cases)
      {
        var k :| 0 <= k < |cases| && cases[k].id == id && HasDetails(cases[k]);
        if k < |init| {
          assert init[k] == cases[k];
        }
      }
    }
  }

  /** One iteration of the case loop; `sent` says whether the model was asked. */
  method ProcessCase(db: DatabaseService, c: CaseRecord, reply: (int, string, nat) -> Option<string>,
                     parse: string -> Option<Json>, saveFails: (int, int) -> bool, now: int)
    returns (sent: bool)
    modifies db
    ensures db.rows == CaseStep(old(db.rows), c, reply, parse, saveFails, now)
    ensures sent <==> HasDetails(c)
    ensures db.closes == old(db.closes) && db.open == old(db.open)
  {
    var details := GetCaseDetails(c);
    DetailsEmptyIff(c);
    sent := details != [];
    if sent {
      var gen, _ := GenerateMultiLangSummary(3, (m: string, i: nat) => reply(c.id, m, i), parse);
      if gen.Returned? && gen.summaries.Some? {
        GenerateReturned(0, 3, (m: string, i: nat) => reply(c.id, m, i), parse);
        assert Accepted(gen.summaries.value);
        SaveAll(db, c.id, gen.summaries.value.items, saveFails, now);
      }
    }
  }

  /** The inner `for summary in summaries` save loop, stopping at the first failing save. */
  method SaveAll(db: DatabaseService, caseId: int, entries: seq<Json>, saveFails: (int, int) -> bool, now: int)
    requires forall k :: 0 <= k < |entries| ==> EntryOk(entries[k])
    modifies db
    ensures db.rows == SaveEntries(old(db.rows), caseId, entries, 0, saveFails, now)
    ensures db.closes == old(db.closes) && db.open == old(db.open)
  {
    var k := 0;
    while k < |entries|
      invariant 0 <= k <= |entries|
      invariant SaveEntries(old(db.rows), caseId, entries, 0, saveFails, now)
             == SaveEntries(db.rows, caseId, entries, k, saveFails, now)
      invariant db.closes == old(db.closes) && db.open == old(db.open)
    {
      if saveFails(caseId, k) {
        return;
      }
      assert EntryOk(entries[k]);
      var e := entries[k].fields;
      db.SaveSummary(caseId, e["lang"], e["summary"], now);
      k := k + 1;
    }
  }
}
