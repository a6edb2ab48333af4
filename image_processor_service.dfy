/**
 * `ImageProcessorService.processCaseImages`: the `strictClean` sanitiser,
 * the storage naming of each image (`<caseId>-<i+1>.webp` under
 * `<urlPath>/<caseId>/`) and the loop that writes one
 * `missing_persons_assets` row per image that went through.
 *
 * The download, the `sharp` compression, the B2 upload and the row insert
 * are one oracle, `attempt(i)`: `None` when any of them threw for image `i`,
 * otherwise the image's metadata and size.
 */
module ImageProcessor {
  import opened Text

  // ------------------------------------------------------------------ strictClean

  /** The characters of `s` that `keep` accepts, in order. */
  function Filter(s: string, keep: char -> bool): (r: string)
    ensures |r| <= |s|
  {
    if s == [] then []
    else (if keep(s[0]) then [s[0]] else []) + Filter(s[1..], keep)
  }

  /** What is kept passes and comes from `s`; everything in `s` that passes is kept. */
  lemma {:induction false} FilterShape(s: string, keep: char -> bool)
    ensures var r := Filter(s, keep);
      && (forall k :: 0 <= k < |r| ==> keep(r[k]) && r[k] in s)
      && (forall k :: 0 <= k < |s| && keep(s[k]) ==> s[k] in r)
  {
    if s != [] {
      var tail := s[1..];
      FilterShape(tail, keep);
      var r := Filter(s, keep);
      var rest := Filter(tail, keep);
      var head := if keep(s[0]) then [s[0]] else [];
      assert r == head + rest;
      forall k | 0 <= k < |r| ensures keep(r[k]) && r[k] in s {
        if k < |head| {
          assert r[k] == s[0];
        } else {
          assert r[k] == rest[k - |head|];
          assert r[k] in tail;
        }
      }
      forall k | 0 <= k < |s| && keep(s[k]) ensures s[k] in r {
        if k == 0 {
          assert r[0] == s[0];
        } else {
          assert s[k] == tail[k - 1];
          assert s[k] in rest;
        }
      }
    }
  }

  /** Every character kept passes. */
  lemma {:induction false} FilterPasses(s: string, keep: char -> bool)
    ensures forall k :: 0 <= k < |Filter(s, keep)| ==> keep(Filter(s, keep)[k])
  {
    if s != [] {
      FilterPasses(s[1..], keep);
      var rest := Filter(s[1..], keep);
      var head := if keep(s[0]) then [s[0]] else [];
      assert Filter(s, keep) == head + rest;
    }
  }

  /** A property every character of `s` has, every character kept has. */
  lemma {:induction false} FilterPreserves(s: string, keep: char -> bool, p: char -> bool)
    requires forall k :: 0 <= k < |s| ==> p(s[k])
    ensures forall k :: 0 <= k < |Filter(s, keep)| ==> p(Filter(s, keep)[k])
  {
    if s != [] {
      assert forall k :: 0 <= k < |s[1..]| ==> s[1..][k] == s[k + 1];
      FilterPreserves(s[1..], keep, p);
      var rest := Filter(s[1..], keep);
      var head := if keep(s[0]) then [s[0]] else [];
      assert Filter(s, keep) == head + rest;
    }
  }

  /** A string whose every character passes is left as it is. */
  lemma {:induction false} FilterKeepsAll(s: string, keep: char -> bool)
    requires forall k :: 0 <= k < |s| ==> keep(s[k])
    ensures Filter(s, keep) == s
  {
    if s != [] {
      FilterKeepsAll(s[1..], keep);
    }
  }

  /** What `[\x00-\x1F]` does not remove. */
  predicate Printable(c: char) { c >= ' ' }

  predicate IsAlnum(c: char) { 'a' <= c <= 'z' || 'A' <= c <= 'Z' || IsDigit(c) }

  /** The characters `[^a-zA-Z0-9\-._~:\/?#\[\]@!$&'()*+,;=]` does not remove. */
  predicate IsUrlChar(c: char) {
    IsAlnum(c) || (c == '-' || c == '.' || c == '_' || c == '~' || c == ':' || c == '/'
    || c == '?' || c == '#' || c == '[' || c == ']' || c == '@' || c == '!' || c == '$'
    || c == '&' || c == '\'' || c == '(' || c == ')' || c == '*' || c == '+' || c == ','
    || c == ';' || c == '=')
  }

  /** The characters `[^a-zA-Z0-9\-._\/\s]` does not remove. */
  predicate IsSafeChar(c: char) {
    IsAlnum(c) || (c == '-' || c == '.' || c == '_' || c == '/') || IsJsSpace(c)
  }

  /** `[\]\}\)\>\'\"\;\:\,\s]`: what may trail a URL pasted from markup. */
  predicate IsUrlTail(c: char) {
    (c == ']' || c == '}' || c == ')' || c == '>' || c == '\'' || c == '\"' || c == ';'
    || c == ':' || c == ',') || IsJsSpace(c)
  }

  /** `.replace(/[\]\}\)\>\'\"\;\:\,\s]+$/g, '')`: the whole trailing run of such characters goes. */
  function TrimUrlTail(s: string): (r: string)
    ensures |r| <= |s| && r == s[..|r|]
  {
    if s == [] || !IsUrlTail(s[|s| - 1]) then s
    else TrimUrlTail(s[..|s| - 1])
  }

  /** What goes is exactly the longest run of such characters at the end. */
  lemma {:induction false} TrimUrlTailShape(s: string)
    ensures var r := TrimUrlTail(s);
      && (r != [] ==> !IsUrlTail(r[|r| - 1]))
      && (forall k :: |r| <= k < |s| ==> IsUrlTail(s[k]))
  {
    if s != [] && IsUrlTail(s[|s| - 1]) {
      TrimUrlTailShape(s[..|s| - 1]);
    }
  }

  predicate StartsWith(s: string, p: string) { |p| <= |s| && s[..|p|] == p }

  /** `http://` is put in front of anything that does not start with `http://` or `https://`. */
  function WithScheme(s: string): (r: string)
    ensures StartsWith(r, "http://") || StartsWith(r, "https://")
  {
    if StartsWith(s, "http://") || StartsWith(s, "https://") then s else "http://" + s
  }

  /** `strictClean(str, isUrl)`. */
  function StrictClean(s: string, isUrl: bool): string {
    var t := Filter(s, Printable);
    if isUrl then WithScheme(Filter(TrimUrlTail(t), IsUrlChar))
    else Filter(t, IsSafeChar)
  }

  /** Only `[A-Za-z0-9-._/]` and whitespace other than the control characters. */
  predicate SafeText(s: string) { forall k :: 0 <= k < |s| ==> IsSafeChar(s[k]) && Printable(s[k]) }

  /** Both modes remove every character below U+0020. */
  lemma NoControls(s: string, isUrl: bool)
    ensures forall k :: 0 <= k < |StrictClean(s, isUrl)| ==> Printable(StrictClean(s, isUrl)[k])
  {
    if isUrl {
      CleanUrlShape(s);
      var r := StrictClean(s, true);
      forall k | 0 <= k < |r| ensures Printable(r[k]) {
        UrlCharPrintable(r[k]);
      }
    } else {
      CleanTextShape(s);
    }
  }

  lemma UrlCharPrintable(c: char)
    requires IsUrlChar(c)
    ensures Printable(c)
  {
  }

  /** Outside URL mode the result is safe text, and cleaning it again changes nothing. */
  lemma CleanTextShape(s: string)
    ensures SafeText(StrictClean(s, false))
    ensures StrictClean(StrictClean(s, false), false) == StrictClean(s, false)
  {
    var t := Filter(s, Printable);
    var r := Filter(t, IsSafeChar);
    assert StrictClean(s, false) == r;
    FilterPasses(s, Printable);
    FilterPasses(t, IsSafeChar);
    FilterPreserves(t, IsSafeChar, Printable);
    SafeTextFixed(r);
  }

  /** Safe text is a fixed point of the non-URL cleaning. */
  lemma SafeTextFixed(s: string)
    requires SafeText(s)
    ensures StrictClean(s, false) == s
  {
    FilterKeepsAll(s, Printable);
    FilterKeepsAll(s, IsSafeChar);
  }

  /** In URL mode the result has a scheme and only URL characters; '%' is not one of them. */
  lemma CleanUrlShape(s: string)
    ensures var r := StrictClean(s, true);
      && (StartsWith(r, "http://") || StartsWith(r, "https://"))
      && (forall k :: 0 <= k < |r| ==> IsUrlChar(r[k]))
      && '%' !in r
  {
    var f := Filter(TrimUrlTail(Filter(s, Printable)), IsUrlChar);
    assert StrictClean(s, true) == WithScheme(f);
    FilterPasses(TrimUrlTail(Filter(s, Printable)), IsUrlChar);
    SchemeUrlChars(f);
    assert !IsUrlChar('%');
  }

  lemma SchemeUrlChars(f: string)
    requires forall k :: 0 <= k < |f| ==> IsUrlChar(f[k])
    ensures forall k :: 0 <= k < |WithScheme(f)| ==> IsUrlChar(WithScheme(f)[k])
  {
    var r := WithScheme(f);
    if r != f {
      assert r == "http://" + f;
      assert forall k :: 0 <= k < 7 ==> r[k] == "http://"[k];
      assert forall k :: 7 <= k < |r| ==> r[k] == f[k - 7];
    }
  }

  // ------------------------------------------------------------------ naming

  /** `.replace(/\./g, '-')`. */
  function DotsToDashes(s: string): (r: string)
    ensures |r| == |s| && forall k :: 0 <= k < |s| ==> r[k] == if s[k] == '.' then '-' else s[k]
  {
    seq(|s|, k requires 0 <= k < |s| => if s[k] == '.' then '-' else s[k])
  }

  /** `${safeCaseId}-${i + 1}.webp`. */
  function FileName(caseId: string, i: nat): string {
    DotsToDashes(StrictClean(caseId, false)) + "-" + NatToString(i + 1) + ".webp"
  }

  /** The storage key: the final `strictClean` of `${cleanedUrlPath}/${cleanedCaseId}/${fileName}`. */
  function Key(urlPath: string, caseId: string, i: nat): string {
    StrictClean(StrictClean(urlPath, false) + "/" + StrictClean(caseId, false) + "/" + FileName(caseId, i), false)
  }

  lemma SafeAppend(a: string, b: string)
    requires SafeText(a) && SafeText(b)
    ensures SafeText(a + b)
  {
    assert forall k :: 0 <= k < |a + b| ==> (a + b)[k] == if k < |a| then a[k] else b[k - |a|];
  }

  /** The file name is the cleaned case id with '.' turned into '-', the 1-based position and `.webp`. */
  lemma FileNameShape(caseId: string, i: nat)
    ensures SafeText(FileName(caseId, i))
    ensures '.' !in DotsToDashes(StrictClean(caseId, false))
    ensures var n := FileName(caseId, i); |n| >= 5 && n[|n| - 5..] == ".webp"
  {
    CleanTextShape(caseId);
    var d := DotsToDashes(StrictClean(caseId, false));
    var num := NatToString(i + 1);
    assert SafeText(d);
    assert SafeText("-") && SafeText(".webp");
    assert SafeText(num);
    SafeAppend(d, "-");
    SafeAppend(d + "-", num);
    SafeAppend(d + "-" + num, ".webp");
    var n := d + "-" + num + ".webp";
    assert n[|n| - 5..] == ".webp";
  }

  /** The final clean of the key changes nothing: every piece is already safe. */
  lemma KeyUnchanged(urlPath: string, caseId: string, i: nat)
    ensures Key(urlPath, caseId, i)
      == StrictClean(urlPath, false) + "/" + StrictClean(caseId, false) + "/" + FileName(caseId, i)
  {
    var p, c, f := StrictClean(urlPath, false), StrictClean(caseId, false), FileName(caseId, i);
    CleanTextShape(urlPath);
    CleanTextShape(caseId);
    FileNameShape(caseId, i);
    assert SafeText("/");
    SafeAppend(p, "/");
    SafeAppend(p + "/", c);
    SafeAppend(p + "/" + c, "/");
    SafeAppend(p + "/" + c + "/", f);
    SafeTextFixed(p + "/" + c + "/" + f);
  }

  // ------------------------------------------------------------------ the asset rows

  /** What a successful attempt yields: `metadata.width`, `metadata.height` and the buffer length. */
  datatype Image = Image(width: Option<nat>, height: Option<nat>, size: nat)

  /** A `missing_persons_assets` row. */
  datatype AssetRow = AssetRow(caseId: string, isPrimary: int, sortOrder: nat, assetType: string,
                               originalFilename: string, newFilename: string, storagePath: string,
                               width: nat, height: nat, fileSize: nat, aiProcessed: int)

  /** An entry of `processedForHf`; the buffer is represented by its length. */
  datatype HfFile = HfFile(path: string, size: nat)

  /** `metadata.width || 0`. */
  function OrZero(v: Option<nat>): nat {
    match v
    case Some(n) => n
    case None => 0
  }

  /** `originalUrl.split('/').pop() || ''`: the text after the last '/'. */
  function LastSegment(url: string): string {
    var parts := Split(url, '/');
    parts[|parts| - 1]
  }

  /** The row inserted for image `i` of the case, whose url is `url`. */
  function Row(caseId: string, url: string, urlPath: string, i: nat, img: Image): AssetRow {
    AssetRow(StrictClean(caseId, false), if i == 0 then 1 else 0, i + 1, "photo",
             StrictClean(LastSegment(StrictClean(url, true)), false),
             StrictClean(FileName(caseId, i), false), Key(urlPath, caseId, i),
             OrZero(img.width), OrZero(img.height), img.size, 0)
  }

  /** How the row of image `i` with url `url` is built. */
  type RowMaker = (string, nat, Image) -> AssetRow

  function CaseRows(caseId: string, urlPath: string): RowMaker {
    (url: string, i: nat, img: Image) => Row(caseId, url, urlPath, i, img)
  }

  /** Rows carry their 1-based position, and only position 1 is primary. */
  ghost predicate Positional(make: RowMaker) {
    forall url: string, i: nat, img: Image :: make(url, i, img).sortOrder == i + 1 && (make(url, i, img).isPrimary == 1 <==> i == 0)
  }

  lemma CaseRowsPositional(caseId: string, urlPath: string)
    ensures Positional(CaseRows(caseId, urlPath))
  {
    forall url: string, i: nat, img: Image
      ensures CaseRows(caseId, urlPath)(url, i, img).sortOrder == i + 1
      ensures CaseRows(caseId, urlPath)(url, i, img).isPrimary == 1 <==> i == 0
    {
      var row := Row(caseId, url, urlPath, i, img);
      assert CaseRows(caseId, urlPath)(url, i, img) == row;
    }
  }

  /** The rows written for the first `n` images: one per image whose attempt went through. */
  function Assets(urls: seq<string>, make: RowMaker, attempt: nat -> Option<Image>, n: nat)
    : (r: seq<AssetRow>)
    requires n <= |urls|
    ensures |r| <= n
  {
    if n == 0 then []
    else
      Assets(urls, make, attempt, n - 1)
        + match attempt(n - 1)
          case Some(img) => [make(urls[n - 1], n - 1, img)]
          case None => []
  }

  /** `processedForHf` for the given rows. */
  function HfFiles(rows: seq<AssetRow>): (r: seq<HfFile>)
    ensures |r| == |rows|
  {
    if rows == [] then []
    else HfFiles(rows[..|rows| - 1]) + [HfFile(rows[|rows| - 1].storagePath, rows[|rows| - 1].fileSize)]
  }

  /** Entry `k` uploads the stored file of row `k`. */
  lemma {:induction false} HfFilesAt(rows: seq<AssetRow>)
    ensures forall k :: 0 <= k < |rows| ==> HfFiles(rows)[k] == HfFile(rows[k].storagePath, rows[k].fileSize)
  {
    if rows != [] {
      HfFilesAt(rows[..|rows| - 1]);
    }
  }

  lemma AppendAssoc(a: seq<AssetRow>, b: seq<AssetRow>, x: AssetRow)
    ensures a + b + [x] == a + (b + [x])
  {
  }

  lemma HfFilesAppend(rows: seq<AssetRow>, row: AssetRow)
    ensures HfFiles(rows + [row]) == HfFiles(rows) + [HfFile(row.storagePath, row.fileSize)]
  {
    assert (rows + [row])[..|rows|] == rows;
  }

  /** Each row is the row of the image at its `sort_order`, whose attempt went through. */
  lemma {:induction false} AssetsRows(urls: seq<string>, make: RowMaker, attempt: nat -> Option<Image>, n: nat)
    requires n <= |urls| && Positional(make)
    ensures var r := Assets(urls, make, attempt, n);
      forall k :: 0 <= k < |r| ==>
        && 1 <= r[k].sortOrder <= n
        && attempt(r[k].sortOrder - 1).Some?
        && r[k] == make(urls[r[k].sortOrder - 1], r[k].sortOrder - 1, attempt(r[k].sortOrder - 1).value)
  {
    if n > 0 {
      AssetsRows(urls, make, attempt, n - 1);
      AssetsGrow(urls, make, attempt, n);
    }
  }

  /** Step `n` keeps the earlier rows and adds the row of image `n - 1` when its attempt went through. */
  lemma AssetsGrow(urls: seq<string>, make: RowMaker, attempt: nat -> Option<Image>, n: nat)
    requires 0 < n <= |urls|
    ensures var prev := Assets(urls, make, attempt, n - 1);
      var r := Assets(urls, make, attempt, n);
      && r[..|prev|] == prev
      && (attempt(n - 1).None? ==> r == prev)
      && (attempt(n - 1).Some? ==>
            r == prev + [make(urls[n - 1], n - 1, attempt(n - 1).value)])
  {
  }

  /** `sort_order` strictly increases along the rows. */
  lemma {:induction false} AssetsOrdered(urls: seq<string>, make: RowMaker, attempt: nat -> Option<Image>, n: nat)
    requires n <= |urls| && Positional(make)
    ensures var r := Assets(urls, make, attempt, n);
      forall a, b :: 0 <= a < b < |r| ==> r[a].sortOrder < r[b].sortOrder
  {
    if n > 0 {
      AssetsOrdered(urls, make, attempt, n - 1);
      AssetsRows(urls, make, attempt, n - 1);
      AssetsGrow(urls, make, attempt, n);
    }
  }

  /** Every image whose attempt went through has its row. */
  lemma {:induction false} AssetsComplete(urls: seq<string>, make: RowMaker, attempt: nat -> Option<Image>, n: nat)
    requires n <= |urls| && Positional(make)
    ensures var r := Assets(urls, make, attempt, n);
      forall i :: 0 <= i < n && attempt(i).Some? ==> exists k :: 0 <= k < |r| && r[k].sortOrder == i + 1
  {
    if n > 0 {
      AssetsComplete(urls, make, attempt, n - 1);
      AssetsGrow(urls, make, attempt, n);
      var prev := Assets(urls, make, attempt, n - 1);
      var r := Assets(urls, make, attempt, n);
      forall i | 0 <= i < n && attempt(i).Some?
        ensures exists k :: 0 <= k < |r| && r[k].sortOrder == i + 1
      {
        if i < n - 1 {
          var k :| 0 <= k < |prev| && prev[k].sortOrder == i + 1;
          assert r[k] == prev[k];
        } else {
          assert r[|prev|].sortOrder == n;
        }
      }
    }
  }

  /** A failed first image leaves the case without a primary row. */
  lemma NoPrimaryWithoutFirst(caseId: string, urls: seq<string>, urlPath: string,
                              attempt: nat -> Option<Image>)
    requires attempt(0).None?
    ensures forall row :: row in Assets(urls, CaseRows(caseId, urlPath), attempt, |urls|) ==> row.isPrimary == 0
  {
    CaseRowsPositional(caseId, urlPath);
    AssetsRows(urls, CaseRows(caseId, urlPath), attempt, |urls|);
  }

  /** The rows of the table that do not belong to `caseId`. */
  function OtherCases(rows: seq<AssetRow>, caseId: string): (r: seq<AssetRow>)
    ensures forall row :: row in r <==> row in rows && row.caseId != caseId
  {
    if rows == [] then []
    else (if rows[0].caseId == caseId then [] else [rows[0]]) + OtherCases(rows[1..], caseId)
  }

  /** The `missing_persons_assets` table. */
  class AssetTable {
    var rows: seq<AssetRow>

    constructor (rows0: seq<AssetRow>)
      ensures rows == rows0
    {
      rows := rows0;
    }

    /** `.where('case_id', caseId).delete()`. */
    method DeleteCase(caseId: string)
      modifies this
      ensures rows == OtherCases(old(rows), caseId)
    {
      rows := OtherCases(rows, caseId);
    }

    method Insert(row: AssetRow)
      modifies this
      ensures rows == old(rows) + [row]
    {
      rows := rows + [row];
    }
  }

  /**
   * `processCaseImages(record, urls, cleanUrlPath)`: the old rows of the case
   * go, then one row per image that went through is appended, and the count
   * and the upload list follow those rows.
   */
  method ProcessCaseImages(table: AssetTable, caseId: string, urls: seq<string>, cleanUrlPath: string,
                           attempt: nat -> Option<Image>)
    returns (caseImageCount: nat, processedForHf: seq<HfFile>)
    modifies table
    ensures table.rows == OtherCases(old(table.rows), caseId) + Assets(urls, CaseRows(caseId, cleanUrlPath), attempt, |urls|)
    ensures processedForHf == HfFiles(Assets(urls, CaseRows(caseId, cleanUrlPath), attempt, |urls|))
    ensures caseImageCount == |processedForHf| <= |urls|
  {
    table.DeleteCase(caseId);
    caseImageCount, processedForHf := AppendImages(table, urls, CaseRows(caseId, cleanUrlPath), attempt);
  }

  /** The image loop of `processCaseImages`, after the delete; `make` builds the row of an image. */
  method AppendImages(table: AssetTable, urls: seq<string>, make: RowMaker, attempt: nat -> Option<Image>)
    returns (caseImageCount: nat, processedForHf: seq<HfFile>)
    modifies table
    ensures table.rows == old(table.rows) + Assets(urls, make, attempt, |urls|)
    ensures processedForHf == HfFiles(Assets(urls, make, attempt, |urls|))
    ensures caseImageCount == |processedForHf| <= |urls|
  {
    ghost var kept := table.rows;
    processedForHf := [];
    caseImageCount := 0;
    for i := 0 to |urls|
      invariant table.rows == kept + Assets(urls, make, attempt, i)
      invariant processedForHf == HfFiles(Assets(urls, make, attempt, i))
      invariant caseImageCount == |processedForHf|
    {
      ghost var before, filesBefore := table.rows, processedForHf;
      var file := ProcessImage(table, urls[i], i, make, attempt);
      if file.Some? {
        processedForHf := processedForHf + [file.value];
        caseImageCount := caseImageCount + 1;
      }
      ImageStep(urls, make, attempt, i, kept, before, table.rows, filesBefore, processedForHf, file);
    }
  }

  /** One turn of the image loop keeps the rows and the upload list in step with `Assets`. */
  lemma ImageStep(urls: seq<string>, make: RowMaker, attempt: nat -> Option<Image>, i: nat,
                  kept: seq<AssetRow>, before: seq<AssetRow>, after: seq<AssetRow>,
                  filesBefore: seq<HfFile>, files: seq<HfFile>, file: Option<HfFile>)
    requires i < |urls|
    requires before == kept + Assets(urls, make, attempt, i)
    requires filesBefore == HfFiles(Assets(urls, make, attempt, i))
    requires attempt(i).None? ==> after == before && file.None?
    requires attempt(i).Some? ==>
      var row := make(urls[i], i, attempt(i).value);
      after == before + [row] && file == Some(HfFile(row.storagePath, row.fileSize))
    requires files == if file.Some? then filesBefore + [file.value] else filesBefore
    ensures after == kept + Assets(urls, make, attempt, i + 1)
    ensures files == HfFiles(Assets(urls, make, attempt, i + 1))
  {
    AssetsGrow(urls, make, attempt, i + 1);
    if attempt(i).Some? {
      var row := make(urls[i], i, attempt(i).value);
      var done := Assets(urls, make, attempt, i);
      HfFilesAppend(done, row);
      AppendAssoc(kept, done, row);
    }
  }

  /**
   * The `try` block for image `i`: when the download, compression, upload and
   * insert went through, the row is stored and its file queued for upload.
   */
  method ProcessImage(table: AssetTable, url: string, i: nat, make: RowMaker, attempt: nat -> Option<Image>)
    returns (file: Option<HfFile>)
    modifies table
    ensures attempt(i).None? ==> table.rows == old(table.rows) && file.None?
    ensures attempt(i).Some? ==>
      var row := make(url, i, attempt(i).value);
      table.rows == old(table.rows) + [row] && file == Some(HfFile(row.storagePath, row.fileSize))
  {
    var result := attempt(i);
    if result.None? {
      return None;
    }
    var row := make(url, i, result.value);
    table.Insert(row);
    file := Some(HfFile(row.storagePath, row.fileSize));
  }

  /**
   * The delete uses the raw `case_id` and the inserts the cleaned one: when
   * cleaning changes the id, rows of an earlier run are not deleted.
   */
  lemma StaleRowsKept()
    ensures var old_row := AssetRow("a", 1, 1, "photo", "x", "a-1.webp", "p/a/a-1.webp", 0, 0, 0, 0);
      StrictClean("a!", false) == "a" && old_row in OtherCases([old_row], "a!")
  {
    assert !IsSafeChar('!');
    FilterKeepsAll("a!", Printable);
    assert StrictClean("a!", false) == Filter("a!", IsSafeChar);
  }

  /** Every row `make` builds belongs to `caseId`. */
  ghost predicate OfCase(make: RowMaker, caseId: string) {
    forall url: string, i: nat, img: Image :: make(url, i, img).caseId == caseId
  }

  lemma CaseRowsOfCase(caseId: string, urlPath: string)
    ensures OfCase(CaseRows(caseId, urlPath), StrictClean(caseId, false))
  {
    forall url: string, i: nat, img: Image
      ensures CaseRows(caseId, urlPath)(url, i, img).caseId == StrictClean(caseId, false)
    {
      assert CaseRows(caseId, urlPath)(url, i, img) == Row(caseId, url, urlPath, i, img);
    }
  }

  lemma {:induction false} AssetsOfCase(urls: seq<string>, make: RowMaker, attempt: nat -> Option<Image>, n: nat,
                                        caseId: string)
    requires n <= |urls| && OfCase(make, caseId)
    ensures forall row :: row in Assets(urls, make, attempt, n) ==> row.caseId == caseId
  {
    if n > 0 {
      AssetsOfCase(urls, make, attempt, n - 1, caseId);
    }
  }

  /** When the id is already clean, the case's rows after the run are exactly the new ones. */
  lemma CleanIdReplacesRows(table: seq<AssetRow>, caseId: string, urls: seq<string>, urlPath: string,
                            attempt: nat -> Option<Image>)
    requires StrictClean(caseId, false) == caseId
    ensures var created := Assets(urls, CaseRows(caseId, urlPath), attempt, |urls|);
      forall row :: row in OtherCases(table, caseId) + created && row.caseId == caseId <==> row in created
  {
    CaseRowsOfCase(caseId, urlPath);
    AssetsOfCase(urls, CaseRows(caseId, urlPath), attempt, |urls|, caseId);
  }
}
