/**
 * The Gemini proxy client: which model a call uses, how the reply text is
 * cleaned and checked, and the fallback that walks down the model list until
 * one reply passes.  The HTTP call and JSON parsing are oracles: `reply(i)`
 * is what the proxy answered for model index `i`, `parse` is what parsing
 * (with the repair heuristics, for summaries) made of the cleaned text.
 */
module GeminiService {
  import opened Text
  import opened Json

  const BaseUrl: string := "https://chatgpt-proxy.gudq.com"

  const AvailableModels: seq<string> := [
    "models/gemini-2.5-flash",
    "models/gemma-3-1b-it",
    "models/gemma-3-4b-it",
    "models/gemma-3-27b-it",
    "models/gemma-3n-e4b-it",
    "models/gemma-3n-e2b-it",
    "models/gemini-flash-latest",
    "models/gemini-flash-lite-latest",
    "models/gemini-2.5-flash-lite",
    "models/gemini-2.5-flash-preview-09-2025",
    "models/gemini-2.5-flash-lite-preview-09-2025",
    "models/gemini-3-flash-preview",
    "models/gemini-robotics-er-1.5-preview"
  ]

  /** `availableModels[modelIndex] || availableModels[0]`. */
  function ModelFor(modelIndex: int): (m: string)
    ensures m in AvailableModels
    ensures 0 <= modelIndex < |AvailableModels| ==> m == AvailableModels[modelIndex]
    ensures !(0 <= modelIndex < |AvailableModels|) ==> m == AvailableModels[0]
  {
    if 0 <= modelIndex < |AvailableModels| then AvailableModels[modelIndex] else AvailableModels[0]
  }

  /** The endpoint a call goes to: the model name with its first "models/" removed. */
  function RequestUrl(modelName: string): string {
    BaseUrl + "/v1beta/models/" + ReplaceFirst(modelName, "models/", "") + ":generateContent"
  }

  /** A model named `models/<bare>` is addressed by its bare name. */
  lemma RequestUrlBareName(m: string)
    requires |m| > 7 && m[..7] == "models/"
    ensures RequestUrl(m) == BaseUrl + "/v1beta/models/" + m[7..] + ":generateContent"
  {
    assert "models/" <= m;
    assert IndexOf(m, "models/") == 0;
  }

  // ------------------------------------------------------------------ fences

  const OpenFence: string := "```json"
  const CloseFence: string := "```"

  /**
   * `text.replace(/^```json|```$/g, '').trim()`: one "```json" at the very
   * start and one "```" at the very end (after it) are removed, then the
   * rest is trimmed.
   */
  function StripFence(text: string): (r: string)
    ensures |r| <= |text|
    ensures !(OpenFence <= text) && !(|text| >= 3 && text[|text| - 3..] == CloseFence) ==> r == Trim(Js, text)
  {
    var a := if OpenFence <= text then text[|OpenFence|..] else text;
    var b := if |a| >= 3 && a[|a| - 3..] == CloseFence then a[..|a| - 3] else a;
    Trim(Js, b)
  }

  /** A fenced reply gives back the trimmed body. */
  lemma StripFenceWrapped(body: string)
    ensures StripFence(OpenFence + body + CloseFence) == Trim(Js, body)
  {
    var t := OpenFence + body + CloseFence;
    assert OpenFence <= t;
    var a := t[|OpenFence|..];
    assert a == body + CloseFence;
    assert a[|a| - 3..] == CloseFence;
    assert a[..|a| - 3] == body;
  }

  // ------------------------------------------------------------------ replies

  /** What one proxy call produced: an error (network, timeout, no candidate text) or the reply text. */
  datatype Outcome = CallFailed | Replied(text: string)

  /** The outcome of a whole generation: both parts `null`, or both set. */
  datatype Generated<T> = Generated(value: Option<T>, modelName: Option<string>)

  /**
   * The recursion shared by both generators: try `modelIndex`; on any error
   * retry with `modelIndex + 1` while `modelIndex < 12`, otherwise give up
   * with both parts `None`.  `accept(i)` is the checked result of model `i`'s
   * call, or `None` when that call threw.
   */
  function Fallback<T>(accept: int -> Option<T>, modelIndex: int): (r: Generated<T>)
    ensures r.value.Some? <==> r.modelName.Some?
    decreases |AvailableModels| - modelIndex
  {
    match accept(modelIndex)
    case Some(v) => Generated(Some(v), Some(ModelFor(modelIndex)))
    case None =>
      if modelIndex < |AvailableModels| - 1 then Fallback(accept, modelIndex + 1)
      else Generated(None, None)
  }

  /**
   * The fallback returns the first accepted result from `modelIndex` on,
   * named after its model, and gives up only when every model from
   * `modelIndex` to the end (at least `modelIndex` itself) failed.
   */
  lemma {:induction false} FallbackFirstSuccess<T>(accept: int -> Option<T>, modelIndex: int)
    ensures var r := Fallback(accept, modelIndex);
      (r.value.Some? ==>
        exists k :: modelIndex <= k && (k == modelIndex || k < |AvailableModels|)
          && accept(k) == r.value && r.modelName == Some(ModelFor(k))
          && forall j :: modelIndex <= j < k ==> accept(j).None?)
      && (r.value.None? ==>
        forall j :: modelIndex <= j && (j == modelIndex || j < |AvailableModels|) ==> accept(j).None?)
    decreases |AvailableModels| - modelIndex
  {
    if accept(modelIndex).None? && modelIndex < |AvailableModels| - 1 {
      FallbackFirstSuccess(accept, modelIndex + 1);
    }
  }

  /** The model indices one generation calls, in order. */
  function Attempts<T>(accept: int -> Option<T>, modelIndex: int): (ks: seq<int>)
    ensures |ks| >= 1 && ks[0] == modelIndex
    decreases |AvailableModels| - modelIndex
  {
    if accept(modelIndex).None? && modelIndex < |AvailableModels| - 1 then
      [modelIndex] + Attempts(accept, modelIndex + 1)
    else [modelIndex]
  }

  /**
   * Attempts go up one index at a time, and there are at most
   * `13 - modelIndex` of them (one when the index is already past the end).
   */
  lemma {:induction false} AttemptsShape<T>(accept: int -> Option<T>, modelIndex: int)
    ensures var ks := Attempts(accept, modelIndex);
      && (forall i :: 0 <= i < |ks| ==> ks[i] == modelIndex + i)
      && (|ks| == 1 || |ks| <= |AvailableModels| - modelIndex)
    decreases |AvailableModels| - modelIndex
  {
    if accept(modelIndex).None? && modelIndex < |AvailableModels| - 1 {
      var rest := Attempts(accept, modelIndex + 1);
      AttemptsShape(accept, modelIndex + 1);
      var ks := [modelIndex] + rest;
      assert Attempts(accept, modelIndex) == ks;
      forall i | 0 <= i < |ks| ensures ks[i] == modelIndex + i {
        if i > 0 { assert ks[i] == rest[i - 1]; }
      }
    }
  }

  /** The last attempt is the one whose result the generation returns. */
  lemma {:induction false} LastAttemptReturned<T>(accept: int -> Option<T>, modelIndex: int)
    ensures var ks := Attempts(accept, modelIndex);
      Fallback(accept, modelIndex).value == accept(ks[|ks| - 1])
    decreases |AvailableModels| - modelIndex
  {
    if accept(modelIndex).None? && modelIndex < |AvailableModels| - 1 {
      var rest := Attempts(accept, modelIndex + 1);
      LastAttemptReturned(accept, modelIndex + 1);
      LaterAttempt(accept, modelIndex);
    } else {
      OnlyAttempt(accept, modelIndex);
    }
  }

  /** When the first attempt fails and models remain, the rest of the attempts and the result are the next index's. */
  lemma LaterAttempt<T>(accept: int -> Option<T>, modelIndex: int)
    requires accept(modelIndex).None? && modelIndex < |AvailableModels| - 1
    ensures Attempts(accept, modelIndex) == [modelIndex] + Attempts(accept, modelIndex + 1)
    ensures Fallback(accept, modelIndex) == Fallback(accept, modelIndex + 1)
  {
  }

  /** When the first attempt answers, or is the last model, it is the only attempt and its result is returned. */
  lemma OnlyAttempt<T>(accept: int -> Option<T>, modelIndex: int)
    requires !(accept(modelIndex).None? && modelIndex < |AvailableModels| - 1)
    ensures Attempts(accept, modelIndex) == [modelIndex]
    ensures Fallback(accept, modelIndex).value == accept(modelIndex)
  {
    match accept(modelIndex)
    case Some(v) =>
      assert Fallback(accept, modelIndex).value == Some(v);
    case None =>
      assert Fallback(accept, modelIndex).value == None;
  }

  // ------------------------------------------------------------------ summaries

  datatype Summary = Summary(lang: string, summary: string)

  const SummaryLangs: seq<string> := ["zh", "en", "es"]

  /** One array element that passes the per-summary checks. */
  function SummaryItem(j: Json): (r: Option<Summary>)
    ensures r.Some? ==> r.value.lang in SummaryLangs && !Blank(Js, r.value.summary)
  {
    match (GetStr(j, "lang"), Get(j, "summary"))
    case (Some(l), Some(JStr(s))) =>
      if l in SummaryLangs && s != [] && Trim(Js, s) != [] then Some(Summary(l, s)) else None
    case _ => None
  }

  /** All items pass `check`, in order; `None` at the first that does not. */
  function AllItems<T>(items: seq<Json>, check: Json -> Option<T>): (r: Option<seq<T>>)
    ensures r.Some? <==> forall i :: 0 <= i < |items| ==> check(items[i]).Some?
    ensures r.Some? ==> (|r.value| == |items|
      && forall i :: 0 <= i < |items| ==> Some(r.value[i]) == check(items[i]))
  {
    if items == [] then Some([])
    else
      var head := check(items[0]);
      var rest := AllItems(items[1..], check);
      assert forall i :: 1 <= i < |items| ==> items[i] == items[1..][i - 1];
      if head.None? || rest.None? then None
      else
        var r := [head.value] + rest.value;
        assert forall i :: 1 <= i < |items| ==> r[i] == rest.value[i - 1];
        Some(r)
  }

  /**
   * The checks after parsing: an array of exactly three elements, each with
   * a lang in {zh, en, es} and a non-blank string summary.  Duplicate
   * languages pass.
   */
  function CheckSummaries(j: Json): (r: Option<seq<Summary>>)
    ensures r.Some? ==> SummariesOk(r.value)
    ensures r.Some? <==> j.JArr? && |j.items| == 3 && forall i :: 0 <= i < 3 ==> SummaryItem(j.items[i]).Some?
  {
    if j.JArr? && |j.items| == 3 then AllItems(j.items, SummaryItem) else None
  }

  predicate SummariesOk(s: seq<Summary>) {
    |s| == 3 && forall i :: 0 <= i < 3 ==> s[i].lang in SummaryLangs && !Blank(Js, s[i].summary)
  }

  /** One call's result: accepted only when the call answered and the parsed text passes the checks. */
  function AcceptSummaries(o: Outcome, parse: string -> Option<Json>): (r: Option<seq<Summary>>)
    ensures r.Some? ==> SummariesOk(r.value)
    ensures r.Some? <==> o.Replied? && parse(StripFence(o.text)).Some? && CheckSummaries(parse(StripFence(o.text)).value).Some?
  {
    match o
    case CallFailed => None
    case Replied(text) =>
      match parse(StripFence(text))
      case None => None
      case Some(j) => CheckSummaries(j)
  }

  /** `generateMultiLangSummary(details, modelIndex)`. */
  function GenerateSummaries(reply: int -> Outcome, parse: string -> Option<Json>, modelIndex: int)
    : (r: Generated<seq<Summary>>)
    ensures r.value.Some? <==> r.modelName.Some?
    ensures r.value.Some? ==> SummariesOk(r.value.value) && r.modelName.value in AvailableModels
  {
    var accept := i => AcceptSummaries(reply(i), parse);
    assert forall i :: accept(i) == AcceptSummaries(reply(i), parse);
    FallbackKeeps(accept, SummariesOk, modelIndex);
    Fallback(accept, modelIndex)
  }

  /** Whatever every single attempt guarantees of an accepted value, the fallback's result has too. */
  lemma {:induction false} FallbackKeeps<T>(accept: int -> Option<T>, ok: T -> bool, modelIndex: int)
    requires forall i :: accept(i).Some? ==> ok(accept(i).value)
    ensures var r := Fallback(accept, modelIndex);
      r.value.Some? ==> ok(r.value.value) && r.modelName.value in AvailableModels
    decreases |AvailableModels| - modelIndex
  {
    if accept(modelIndex).None? && modelIndex < |AvailableModels| - 1 {
      FallbackKeeps(accept, ok, modelIndex + 1);
    }
  }

  // ------------------------------------------------------------------ tags

  predicate IsSlugChar(c: char) { 'a' <= c <= 'z' || IsDigit(c) }

  /** `(?:[a-z0-9]|-[a-z0-9])*$`, read after the first character. */
  predicate SlugRest(t: string)
    decreases |t|
  {
    t == []
    || (IsSlugChar(t[0]) && SlugRest(t[1..]))
    || (t[0] == '-' && |t| >= 2 && IsSlugChar(t[1]) && SlugRest(t[2..]))
  }

  /** `/^[a-z0-9]+(?:-[a-z0-9]+)*$/.test(s)`, as the pattern reads. */
  predicate SlugPattern(s: string) {
    s != [] && IsSlugChar(s[0]) && SlugRest(s[1..])
  }

  /** The same language described by its shape. */
  predicate SlugShape(s: string) {
    && s != []
    && (forall k :: 0 <= k < |s| ==> IsSlugChar(s[k]) || s[k] == '-')
    && s[0] != '-' && s[|s| - 1] != '-'
    && (forall k :: 0 <= k < |s| - 1 ==> !(s[k] == '-' && s[k + 1] == '-'))
  }

  predicate RestShape(t: string) {
    && (forall k :: 0 <= k < |t| ==> IsSlugChar(t[k]) || t[k] == '-')
    && (t != [] ==> t[|t| - 1] != '-')
    && (forall k :: 0 <= k < |t| - 1 ==> !(t[k] == '-' && t[k + 1] == '-'))
  }

  lemma RestShapeCons(c: char, t: string)
    requires IsSlugChar(c)
    ensures RestShape([c] + t) <==> RestShape(t)
  {
    var u := [c] + t;
    assert forall k :: 1 <= k < |u| ==> u[k] == t[k - 1];
    if RestShape(t) {
      assert forall k :: 0 <= k < |u| - 1 ==> !(u[k] == '-' && u[k + 1] == '-') by {
        forall k | 0 <= k < |u| - 1 ensures !(u[k] == '-' && u[k + 1] == '-') {
          if k > 0 { assert u[k] == t[k - 1] && u[k + 1] == t[k]; }
        }
      }
    }
    if RestShape(u) {
      forall k | 0 <= k < |t| ensures IsSlugChar(t[k]) || t[k] == '-' {
        assert t[k] == u[k + 1];
      }
      if t != [] { assert t[|t| - 1] == u[|u| - 1]; }
      forall k | 0 <= k < |t| - 1 ensures !(t[k] == '-' && t[k + 1] == '-') {
        assert t[k] == u[k + 1] && t[k + 1] == u[k + 2];
      }
    }
  }

  lemma {:induction false} SlugRestShape(t: string)
    ensures SlugRest(t) <==> RestShape(t)
    decreases |t|
  {
    if t != [] {
      assert t == [t[0]] + t[1..];
      if IsSlugChar(t[0]) {
        SlugRestShape(t[1..]);
        RestShapeCons(t[0], t[1..]);
      } else if t[0] == '-' && |t| >= 2 && IsSlugChar(t[1]) {
        SlugRestShape(t[2..]);
        assert t[1..] == [t[1]] + t[2..];
        RestShapeCons(t[1], t[2..]);
        assert RestShape(t) <==> RestShape(t[1..]);
      } else if t[0] == '-' && |t| >= 2 {
        assert !RestShape(t) by {
          if t[1] == '-' { assert t[0] == '-' && t[1] == '-'; }
          else { assert !(IsSlugChar(t[1]) || t[1] == '-'); }
        }
      }
    }
  }

  /** The slug pattern accepts exactly the non-empty [a-z0-9-] words that neither start nor end with '-' nor hold "--". */
  lemma SlugPatternShape(s: string)
    ensures SlugPattern(s) <==> SlugShape(s)
  {
    if s != [] {
      SlugRestShape(s[1..]);
      assert s == [s[0]] + s[1..];
      if IsSlugChar(s[0]) {
        RestShapeCons(s[0], s[1..]);
        if |s| == 1 { assert s[|s| - 1] == s[0]; }
      }
    }
  }

  /** The four fields of a generated tag; a missing field reads as `JNull` (both are falsy). */
  datatype TagFields = TagFields(slug: Json, en: Json, zh: Json, es: Json)

  function Field(j: Json, key: string): Json {
    match Get(j, key)
    case Some(v) => v
    case None => JNull
  }

  /** One array element that passes: truthy slug/en/zh/es and a slug matching the pattern. */
  function TagItem(j: Json): (r: Option<TagFields>)
    ensures r.Some? ==> (Truthy(r.value.slug) && Truthy(r.value.en) && Truthy(r.value.zh) && Truthy(r.value.es)
      && SlugShape(JsToString(r.value.slug)))
  {
    if !j.JObj? then None
    else
      var t := TagFields(Field(j, "slug"), Field(j, "en"), Field(j, "zh"), Field(j, "es"));
      if Truthy(t.slug) && Truthy(t.en) && Truthy(t.zh) && Truthy(t.es) && SlugPattern(JsToString(t.slug)) then
        SlugPatternShape(JsToString(t.slug));
        Some(t)
      else None
  }

  /** The checks after `JSON.parse`: an array (possibly empty) whose every element passes. */
  function CheckTags(j: Json): (r: Option<seq<TagFields>>)
    ensures r.Some? <==> j.JArr? && forall i :: 0 <= i < |j.items| ==> TagItem(j.items[i]).Some?
  {
    if j.JArr? then AllItems(j.items, TagItem) else None
  }

  predicate TagsOk(ts: seq<TagFields>) {
    forall i :: 0 <= i < |ts| ==>
      Truthy(ts[i].slug) && Truthy(ts[i].en) && Truthy(ts[i].zh) && Truthy(ts[i].es) && SlugShape(JsToString(ts[i].slug))
  }

  function AcceptTags(o: Outcome, parse: string -> Option<Json>): (r: Option<seq<TagFields>>)
    ensures r.Some? ==> TagsOk(r.value)
    ensures r.Some? <==> o.Replied? && parse(StripFence(o.text)).Some? && CheckTags(parse(StripFence(o.text)).value).Some?
  {
    match o
    case CallFailed => None
    case Replied(text) =>
      match parse(StripFence(text))
      case None => None
      case Some(j) => CheckTags(j)
  }

  /** `generateMultiLangTags(details, modelIndex)`. */
  function GenerateTags(reply: int -> Outcome, parse: string -> Option<Json>, modelIndex: int)
    : (r: Generated<seq<TagFields>>)
    ensures r.value.Some? <==> r.modelName.Some?
    ensures r.value.Some? ==> TagsOk(r.value.value) && r.modelName.value in AvailableModels
  {
    var accept := i => AcceptTags(reply(i), parse);
    assert forall i :: accept(i) == AcceptTags(reply(i), parse);
    FallbackKeeps(accept, TagsOk, modelIndex);
    Fallback(accept, modelIndex)
  }

  // ------------------------------------------------------------------ singleton

  class Client {
    const apiKey: string

    /** `env.get('GEMINI_API_KEY') || ''`. */
    constructor (key: Option<string>)
      ensures apiKey == (if key.Some? then key.value else "")
    {
      apiKey := if key.Some? then key.value else "";
    }
  }

  /** The static `instance` slot. */
  class Registry {
    var instance: Client?

    constructor ()
      ensures instance == null
    {
      instance := null;
    }

    /** `getInstance()`: creates the client on first use, then always hands back that one. */
    method GetInstance(key: Option<string>) returns (c: Client)
      modifies this
      ensures old(instance) != null ==> c == old(instance)
      ensures old(instance) == null ==> fresh(c) && c.apiKey == (if key.Some? then key.value else "")
      ensures instance == c
    {
      if instance == null {
        instance := new Client(key);
      }
      c := instance;
    }
  }

  /** Two calls hand back the same object. */
  method GetInstanceTwice(r: Registry, key1: Option<string>, key2: Option<string>) returns (a: Client, b: Client)
    modifies r
    ensures a == b && r.instance == a
  {
    a := r.GetInstance(key1);
    b := r.GetInstance(key2);
  }
}
