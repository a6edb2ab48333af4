/**
 * What `webp:run` and `webp:stable` share: the `<img>` source extraction,
 * the url_path trim, and the status written for each case.
 */
module WebpCommon {
  import opened Text

  // ------------------------------------------------------------------ /<img[^>]+src=["']([^"']+)["']/gi

  predicate IsQuoteChar(c: char) { c == '"' || c == '\'' }

  /** `<img`, in any case, at `i`. */
  predicate ImgOpen(s: string, i: int) {
    0 <= i && i + 4 <= |s| && s[i] == '<' && LowerChar(s[i + 1]) == 'i'
      && LowerChar(s[i + 2]) == 'm' && LowerChar(s[i + 3]) == 'g'
  }

  /** `src=`, in any case, at `q`. */
  predicate SrcWord(s: string, q: int) {
    0 <= q && q + 4 <= |s| && LowerChar(s[q]) == 's' && LowerChar(s[q + 1]) == 'r'
      && LowerChar(s[q + 2]) == 'c' && s[q + 3] == '='
  }

  /** How many characters from `j` on are not `c1`/`c2`-like stops: the run `[^"']*` or `[^>]*`. */
  function RunLength(s: string, j: nat, stop: char -> bool): (n: nat)
    requires j <= |s|
    ensures j + n <= |s|
    ensures forall k :: j <= k < j + n ==> !stop(s[k])
    ensures j + n < |s| ==> stop(s[j + n])
    decreases |s| - j
  {
    if j == |s| || stop(s[j]) then 0 else 1 + RunLength(s, j + 1, stop)
  }

  predicate IsGt(c: char) { c == '>' }

  /** `src=["']([^"']+)["']` matches at `q`. */
  predicate SrcMatch(s: string, q: int) {
    SrcWord(s, q) && q + 5 <= |s| && IsQuoteChar(s[q + 4])
      && var n := RunLength(s, q + 5, IsQuoteChar); n >= 1 && q + 5 + n < |s|
  }

  /** The captured value of a match at `q`, and where the match ends. */
  function SrcValue(s: string, q: int): (r: (string, nat))
    requires SrcMatch(s, q)
    ensures r.0 != [] && forall k :: 0 <= k < |r.0| ==> !IsQuoteChar(r.0[k])
    ensures q < r.1 <= |s|
  {
    var n := RunLength(s, q + 5, IsQuoteChar);
    (s[q + 5..q + 5 + n], q + 5 + n + 1)
  }

  /** The largest `q` in `[lo, hi]` where the rest of the pattern matches: `[^>]+` is greedy. */
  function LastSrc(s: string, lo: int, hi: int): (r: Option<nat>)
    ensures r.Some? ==> lo <= r.value <= hi && SrcMatch(s, r.value)
    ensures r.Some? ==> forall q :: r.value < q <= hi ==> !SrcMatch(s, q)
    ensures r.None? ==> forall q :: lo <= q <= hi ==> !SrcMatch(s, q)
    decreases hi - lo
  {
    if hi < lo || hi < 0 then None
    else if SrcMatch(s, hi) then Some(hi)
    else LastSrc(s, lo, hi - 1)
  }

  /** The match starting at `i`, if any: its captured source and its end. */
  function ImgMatch(s: string, i: nat): (r: Option<(string, nat)>)
    ensures r.Some? ==> ImgOpen(s, i) && r.value.0 != [] && i < r.value.1 <= |s|
    ensures r.Some? ==> forall k :: 0 <= k < |r.value.0| ==> !IsQuoteChar(r.value.0[k])
  {
    if !ImgOpen(s, i) then None
    else
      var lim := i + 4 + RunLength(s, i + 4, IsGt);
      match LastSrc(s, i + 5, lim)
      case None => None
      case Some(q) => Some(SrcValue(s, q))
  }

  /**
   * The match at an `<img` takes the last `src=` inside the tag whose quoted
   * value matches (so `data-src` beats an earlier `src`).
   */
  lemma GreedySrc(s: string, i: nat, q: nat)
    requires ImgOpen(s, i) && SrcMatch(s, q)
    requires i + 5 <= q && forall k :: i + 4 <= k < q ==> !IsGt(s[k])
    requires forall q' :: q < q' < |s| && (forall k :: i + 4 <= k < q' ==> !IsGt(s[k])) ==> !SrcMatch(s, q')
    ensures ImgMatch(s, i) == Some(SrcValue(s, q))
  {
    var lim := i + 4 + RunLength(s, i + 4, IsGt);
    assert q <= lim;
    assert LastSrc(s, i + 5, lim) == Some(q);
  }

  /** `[...s.matchAll(imgRegex)].map(m => m[1])` from position `pos` on. */
  function MatchAll(s: string, pos: nat): (urls: seq<string>)
    ensures forall k :: 0 <= k < |urls| ==> urls[k] != [] && forall c :: 0 <= c < |urls[k]| ==> !IsQuoteChar(urls[k][c])
    decreases |s| - pos
  {
    if pos >= |s| then []
    else
      match ImgMatch(s, pos)
      case Some(m) => [m.0] + MatchAll(s, m.1)
      case None => MatchAll(s, pos + 1)
  }

  /** `record.case_html?.matchAll(imgRegex) || []`. */
  function ImgUrls(html: Option<string>): (urls: seq<string>)
    ensures forall k :: 0 <= k < |urls| ==> urls[k] != [] && forall c :: 0 <= c < |urls[k]| ==> !IsQuoteChar(urls[k][c])
  {
    if html.None? then [] else MatchAll(html.value, 0)
  }

  /** Without an `<img` (in any case) there is no source. */
  lemma {:induction false} NoImgNoUrls(s: string, pos: nat)
    requires forall i :: pos <= i < |s| ==> !ImgOpen(s, i)
    ensures MatchAll(s, pos) == []
    decreases |s| - pos
  {
    if pos < |s| {
      NoImgNoUrls(s, pos + 1);
    }
  }

  /** A lone `<img src="u">` gives exactly `u`. */
  lemma SingleImg(u: string)
    requires u != [] && forall k :: 0 <= k < |u| ==> !IsQuoteChar(u[k]) && !IsGt(u[k])
    ensures MatchAll("<img src=\"" + u + "\">", 0) == [u]
  {
    var s := "<img src=\"" + u + "\">";
    TagFacts(s, u);
    var n := |u|;
    TagMatch(s, u);
    assert !ImgOpen(s, n + 11);
    assert MatchAll(s, n + 12) == [];
  }

  /** The characters of `<img src="u">`. */
  predicate Tag(s: string, u: string) {
    && |s| == |u| + 12
    && s[0] == '<' && s[1] == 'i' && s[2] == 'm' && s[3] == 'g' && s[4] == ' '
    && s[5] == 's' && s[6] == 'r' && s[7] == 'c' && s[8] == '=' && s[9] == '"'
    && (forall k :: 0 <= k < |u| ==> s[10 + k] == u[k])
    && s[10 + |u|] == '"' && s[11 + |u|] == '>'
  }

  lemma TagFacts(s: string, u: string)
    requires s == "<img src=\"" + u + "\">"
    ensures Tag(s, u) && s[10..10 + |u|] == u
  {
  }

  lemma TagMatch(s: string, u: string)
    requires u != [] && forall k :: 0 <= k < |u| ==> !IsQuoteChar(u[k]) && !IsGt(u[k])
    requires Tag(s, u) && s[10..10 + |u|] == u
    ensures ImgMatch(s, 0) == Some((u, |u| + 11))
  {
    var n := |u|;
    assert ImgOpen(s, 0);
    var lim := 4 + RunLength(s, 4, IsGt);
    assert lim == n + 11 by {
      assert forall k :: 4 <= k < n + 11 ==> !IsGt(s[k]) by {
        forall k | 10 <= k < n + 10 ensures !IsGt(s[k]) {
          assert s[10 + (k - 10)] == u[k - 10];
        }
      }
      RunLengthIs(s, 4, IsGt, n + 7);
    }
    forall k | 10 <= k < n + 10 ensures !IsQuoteChar(s[k]) {
      assert s[10 + (k - 10)] == u[k - 10];
    }
    RunLengthIs(s, 10, IsQuoteChar, n);
    assert SrcMatch(s, 5);
    forall q | 5 < q <= lim ensures !SrcMatch(s, q) {
      if q + 4 < |s| && IsQuoteChar(s[q + 4]) {
        assert q + 4 == n + 10;
        assert RunLength(s, q + 5, IsQuoteChar) == 1;
      }
    }
    assert LastSrc(s, 5, lim) == Some(5);
  }

  /** A run of exactly `n` non-stop characters ended by a stop or by the end. */
  lemma {:induction false} RunLengthIs(s: string, j: nat, stop: char -> bool, n: nat)
    requires j + n <= |s|
    requires forall k :: j <= k < j + n ==> !stop(s[k])
    requires j + n < |s| ==> stop(s[j + n])
    ensures RunLength(s, j, stop) == n
    decreases n
  {
    if n > 0 {
      RunLengthIs(s, j + 1, stop, n - 1);
    }
  }

  // ------------------------------------------------------------------ url_path

  /** `(url_path || '').replace(/^\/|\/$/g, '')`: one leading and one trailing '/' removed. */
  function CleanPath(urlPath: Option<string>): (r: string)
    ensures var p := if urlPath.Some? then urlPath.value else "";
      || r == p || p == "/" + r || p == r + "/" || p == "/" + r + "/"
    ensures var p := if urlPath.Some? then urlPath.value else "";
      |p| >= 2 && p[0] == '/' && p[|p| - 1] == '/' ==> p == "/" + r + "/"
  {
    var p := if urlPath.Some? then urlPath.value else "";
    var t := if p != [] && p[0] == '/' then p[1..] else p;
    assert p == t || p == "/" + t;
    var r := if t != [] && t[|t| - 1] == '/' then t[..|t| - 1] else t;
    assert t == r || t == r + "/";
    r
  }

  // ------------------------------------------------------------------ a case and its status

  /** A row of the pending-cases query. `webpStatus` is its `image_webp_status` when fetched. */
  datatype CaseRecord = CaseRecord(id: int, caseId: string, caseHtml: Option<string>, urlPath: Option<string>, webpStatus: int)

  /** `processCaseImages` raced with the timeout: the count and the files for the HF queue, or an exception. */
  datatype Processing<F> = Processed(caseImageCount: nat, processedForHf: seq<F>) | Threw

  /** The `update({ image_webp_status, image_count })` for a case. */
  datatype StatusWrite = StatusWrite(id: int, status: int, imageCount: nat)

  /** How a case ended: no image, processed (with the files it produced), or failed. */
  datatype Handling<F> = NoImages | Done(count: nat, files: seq<F>) | Failed

  function Classify<F>(rec: CaseRecord, result: Processing<F>): Handling<F> {
    if ImgUrls(rec.caseHtml) == [] then NoImages
    else match result
      case Processed(n, files) => Done(n, files)
      case Threw => Failed
  }

  /** Status 1 with count 0 without images, 1 with the count on success, 2 with count 0 on an exception. */
  function WriteFor<F>(rec: CaseRecord, h: Handling<F>): (w: StatusWrite)
    ensures w.id == rec.id
    ensures w.status == 1 <==> !h.Failed?
    ensures w.status == 2 <==> h.Failed?
    ensures w.imageCount == (if h.Done? then h.count else 0)
  {
    match h
    case NoImages => StatusWrite(rec.id, 1, 0)
    case Done(n, _) => StatusWrite(rec.id, 1, n)
    case Failed => StatusWrite(rec.id, 2, 0)
  }
}
