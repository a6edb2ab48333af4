/**
 * Character-class checks on the zh/en/es texts the model returns, and the two
 * validators that turn them into error lists for tags and summaries.
 */
module LanguageValidator {
  import opened Text

  /** `[一-龥]`: the CJK unified ideographs the site treats as Chinese. */
  predicate IsHan(c: char) { '\U{4E00}' <= c <= '\U{9FA5}' }

  /** `[ñáéíóúü¿¡ÑÁÉÍÓÚÜ]`. */
  predicate IsSpanishMark(c: char) {
    (c == 'ñ' || c == 'á' || c == 'é' || c == 'í' || c == 'ó' || c == 'ú' || c == 'ü'
    || c == '¿' || c == '¡' || c == 'Ñ' || c == 'Á' || c == 'É' || c == 'Í' || c == 'Ó'
    || c == 'Ú' || c == 'Ü')
  }

  /** The scan behind `/[一-龥]/.test(t)`. */
  function ContainsChinese(t: string): (b: bool)
    ensures b <==> exists k :: 0 <= k < |t| && IsHan(t[k])
  {
    if t == [] then false
    else if IsHan(t[0]) then true
    else
      var b := ContainsChinese(t[1..]);
      assert forall k :: 1 <= k < |t| ==> t[k] == t[1..][k - 1];
      b
  }

  /** The scan behind `/[ñáéíóúü¿¡ÑÁÉÍÓÚÜ]/.test(t)`. */
  function ContainsSpanish(t: string): (b: bool)
    ensures b <==> exists k :: 0 <= k < |t| && IsSpanishMark(t[k])
  {
    if t == [] then false
    else if IsSpanishMark(t[0]) then true
    else
      var b := ContainsSpanish(t[1..]);
      assert forall k :: 1 <= k < |t| ==> t[k] == t[1..][k - 1];
      b
  }

  predicate IsAsciiLetter(c: char) { 'a' <= c <= 'z' || 'A' <= c <= 'Z' }

  /**
   * `[a-zA-Z0-9\s.,!?"'()-;:_]`; the `)-;` part is the range ')'..';', which
   * takes in `*`, `+`, `,`, `-`, `.`, `/`, the digits and `:`.
   */
  predicate InEnglishClass(c: char) {
    IsAsciiLetter(c) || IsDigit(c) || IsJsSpace(c) || (c == '.' || c == ',' || c == '!'
    || c == '?' || c == '\"' || c == '\'' || c == '(' || c == '_' || c == ':')
    || (')' <= c <= ';')
  }

  /** The Spanish class under the `i` flag: the English one plus the accented letters in both cases. */
  predicate InSpanishClass(c: char) {
    InEnglishClass(c) || IsSpanishMark(c)
  }

  /** `[一-龥0-9\s，。！？“”‘’（）；：—]`. */
  predicate InChineseClass(c: char) {
    IsHan(c) || IsDigit(c) || IsJsSpace(c) || (c == '，' || c == '。' || c == '！' || c == '？'
    || c == '“' || c == '”' || c == '‘' || c == '’' || c == '（' || c == '）' || c == '；'
    || c == '：' || c == '—')
  }

  /** `^[class]+$` tested against `t`. */
  predicate AllEnglish(t: string) { t != [] && forall k :: 0 <= k < |t| ==> InEnglishClass(t[k]) }

  predicate AllSpanish(t: string) { t != [] && forall k :: 0 <= k < |t| ==> InSpanishClass(t[k]) }

  predicate IsEnglishOnly(t: string) {
    AllEnglish(t) && !ContainsSpanish(t) && !ContainsChinese(t)
  }

  predicate IsSpanishOnly(t: string) {
    AllSpanish(t) && !ContainsChinese(t)
  }

  predicate IsChineseOnly(t: string) {
    t != [] && forall k :: 0 <= k < |t| ==> InChineseClass(t[k])
  }

  /**
   * isEnglishOnly: the pattern alone already rules out Chinese and Spanish
   * characters, so the two extra tests never change the answer; the empty
   * text is rejected.
   */
  lemma EnglishOnlyMeaning(t: string)
    ensures IsEnglishOnly(t) <==> AllEnglish(t)
    ensures IsEnglishOnly(t) ==> !ContainsChinese(t) && !ContainsSpanish(t)
    ensures !IsEnglishOnly([])
  {
    if AllEnglish(t) {
      forall k | 0 <= k < |t| ensures !IsHan(t[k]) && !IsSpanishMark(t[k]) {
        EnglishCharOnly(t[k]);
      }
    }
  }

  /** A character of the English class is neither Han nor a Spanish mark. */
  lemma EnglishCharOnly(c: char)
    requires InEnglishClass(c)
    ensures !IsHan(c) && !IsSpanishMark(c)
  {
  }

  /** '*', '+' and '/' pass isEnglishOnly. */
  lemma EnglishOnlyExample()
    ensures IsEnglishOnly("*+/")
  {
    assert InEnglishClass('*') && InEnglishClass('+') && InEnglishClass('/');
    EnglishOnlyMeaning("*+/");
  }

  /** isSpanishOnly: rejects '' and never holds of text with a Chinese character. */
  lemma SpanishOnlyMeaning(t: string)
    ensures IsSpanishOnly(t) <==> AllSpanish(t)
    ensures IsSpanishOnly(t) ==> !ContainsChinese(t)
    ensures !IsSpanishOnly([])
  {
    if AllSpanish(t) {
      forall k | 0 <= k < |t| ensures !IsHan(t[k]) {
        assert InSpanishClass(t[k]);
      }
    }
  }

  /** Inverted marks and accents pass isSpanishOnly. */
  lemma SpanishOnlyExample()
    ensures IsSpanishOnly("¿Dónde?")
  {
    var w := "¿Dónde?";
    assert forall k :: 0 <= k < |w| ==> InSpanishClass(w[k]);
    SpanishOnlyMeaning(w);
  }

  /** isChineseOnly: false for '' and for any text holding an ASCII letter. */
  lemma ChineseOnlyRejectsLetters(t: string, k: nat)
    requires k < |t| && IsAsciiLetter(t[k])
    ensures !IsChineseOnly(t) && !IsChineseOnly([])
  {
    assert !InChineseClass(t[k]);
  }

  // ------------------------------------------------------------------ tags

  datatype Tag = Tag(slug: string, en: string, zh: string, es: string)

  datatype TagError =
    | EnHasChinese(en: string)
    | EnHasSpanish(en: string)
    | EsHasChinese(es: string)
    | ZhBlank

  /** The message text pushed for each error. */
  function TagMessage(e: TagError): string {
    match e
    case EnHasChinese(en) => "英语标签 [" + en + "] 包含中文字符"
    case EnHasSpanish(en) => "英语标签 [" + en + "] 包含西班牙语字符"
    case EsHasChinese(es) => "西班牙语标签 [" + es + "] 包含中文字符"
    case ZhBlank => "中文标签不能为空"
  }

  /** `if (b) errors.push(e)`. */
  function Flag<E>(b: bool, e: E): (r: seq<E>)
    ensures |r| <= 1 && (e in r <==> b) && forall x :: x in r ==> x == e
  {
    if b then [e] else []
  }

  datatype Verdict<E> = Verdict(isValid: bool, errors: seq<E>)

  function ValidateTagLanguages(tag: Tag): (v: Verdict<TagError>)
    ensures v.isValid <==> v.errors == []
    ensures |v.errors| <= 4
    ensures v.isValid <==> !ContainsChinese(tag.en) && !ContainsSpanish(tag.en)
                           && !ContainsChinese(tag.es) && !Blank(Js, tag.zh)
  {
    var errors := Flag(ContainsChinese(tag.en), EnHasChinese(tag.en))
      + Flag(ContainsSpanish(tag.en), EnHasSpanish(tag.en))
      + Flag(ContainsChinese(tag.es), EsHasChinese(tag.es))
      + Flag(Trim(Js, tag.zh) == [], ZhBlank);
    Verdict(|errors| == 0, errors)
  }

  /** Each of the four errors is reported exactly when its condition holds, and nothing else is. */
  lemma TagErrorsExact(tag: Tag)
    ensures var errs := ValidateTagLanguages(tag).errors;
      && (EnHasChinese(tag.en) in errs <==> ContainsChinese(tag.en))
      && (EnHasSpanish(tag.en) in errs <==> ContainsSpanish(tag.en))
      && (EsHasChinese(tag.es) in errs <==> ContainsChinese(tag.es))
      && (ZhBlank in errs <==> Blank(Js, tag.zh))
      && forall e :: e in errs ==> e in [EnHasChinese(tag.en), EnHasSpanish(tag.en), EsHasChinese(tag.es), ZhBlank]
  {
    var b1, b2, b3, b4 := ContainsChinese(tag.en), ContainsSpanish(tag.en), ContainsChinese(tag.es), Trim(Js, tag.zh) == [];
    assert b4 <==> Blank(Js, tag.zh);
    TagFlags(b1, b2, b3, b4, tag.en, tag.es);
  }

  /** The four flags, over any conditions: each error is present exactly when its condition holds. */
  lemma TagFlags(b1: bool, b2: bool, b3: bool, b4: bool, en: string, es: string)
    ensures var errs := Flag(b1, EnHasChinese(en)) + Flag(b2, EnHasSpanish(en))
        + Flag(b3, EsHasChinese(es)) + Flag(b4, ZhBlank);
      && (EnHasChinese(en) in errs <==> b1)
      && (EnHasSpanish(en) in errs <==> b2)
      && (EsHasChinese(es) in errs <==> b3)
      && (ZhBlank in errs <==> b4)
      && forall e :: e in errs ==> e in [EnHasChinese(en), EnHasSpanish(en), EsHasChinese(es), ZhBlank]
  {
    var f1, f2, f3, f4 := Flag(b1, EnHasChinese(en)), Flag(b2, EnHasSpanish(en)), Flag(b3, EsHasChinese(es)), Flag(b4, ZhBlank);
    FlagsMembership(f1 + f2 + f3 + f4, f1, f2, f3, f4);
  }

  lemma FlagsMembership<E>(errs: seq<E>, f1: seq<E>, f2: seq<E>, f3: seq<E>, f4: seq<E>)
    requires errs == f1 + f2 + f3 + f4
    ensures forall e :: e in errs <==> e in f1 || e in f2 || e in f3 || e in f4
  {
  }

  // ------------------------------------------------------------------ summaries

  datatype SummaryError =
    | SummaryBlank(langUpper: string)
    | EnSummaryChinese(excerpt: string)
    | EnSummarySpanish(excerpt: string)
    | EsSummaryChinese(excerpt: string)
    | UnknownLanguage(lang: string)

  function SummaryMessage(e: SummaryError): string {
    match e
    case SummaryBlank(l) => l + " 摘要不能为空"
    case EnSummaryChinese(x) => "英语摘要包含中文字符: " + x + "..."
    case EnSummarySpanish(x) => "英语摘要包含西班牙语字符: " + x + "..."
    case EsSummaryChinese(x) => "西班牙语摘要包含中文字符: " + x + "..."
    case UnknownLanguage(l) => "未知语言: " + l
  }

  /** `content.slice(0, 50)`. */
  function Excerpt(content: string): string {
    if |content| <= 50 then content else content[..50]
  }

  function ValidateSummaryLanguage(lang: string, content: string): (v: Verdict<SummaryError>)
    ensures v.isValid <==> v.errors == []
    ensures Blank(Js, content) ==> v.errors == [SummaryBlank(Upper(lang))]
    ensures !Blank(Js, content) && Lower(lang) == "zh" ==> v.isValid
    ensures !Blank(Js, content) && Lower(lang) == "es" ==> (v.isValid <==> !ContainsChinese(content))
    ensures !Blank(Js, content) && Lower(lang) == "en"
            ==> (v.isValid <==> !ContainsChinese(content) && !ContainsSpanish(content))
    ensures Lower(lang) !in ["zh", "en", "es"] ==> !v.isValid
    ensures |v.errors| <= 2
  {
    if Trim(Js, content) == [] then Verdict(false, [SummaryBlank(Upper(lang))])
    else
      var x := Excerpt(content);
      var errors :=
        if Lower(lang) == "en" then
          (if ContainsChinese(content) then [EnSummaryChinese(x)] else [])
          + (if ContainsSpanish(content) then [EnSummarySpanish(x)] else [])
        else if Lower(lang) == "es" then
          (if ContainsChinese(content) then [EsSummaryChinese(x)] else [])
        else if Lower(lang) == "zh" then []
        else [UnknownLanguage(lang)];
      Verdict(|errors| == 0, errors)
  }

  /** Spanish content is valid whenever it is non-blank and free of Chinese characters. */
  lemma SpanishSummaryValid(content: string)
    requires !Blank(Js, content) && !ContainsChinese(content)
    ensures ValidateSummaryLanguage("es", content).isValid
    ensures ValidateSummaryLanguage("ES", content).isValid
  {
    assert Lower("es") == "es";
    assert Lower("ES") == "es";
  }
}
