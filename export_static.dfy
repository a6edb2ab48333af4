/**
 * `export:static`: the static site of one language. Every case with a
 * `url_path` gets a detail page under its lower-cased relative path; the
 * cases are grouped by city path and by state; unless a single case was
 * asked for, a city index per city path, a state index per state, the home
 * page, `search_data.txt` and `sitemap.xml` follow.
 *
 * The query result is a parameter. Page bodies (Edge templates and HTML
 * literals) are not modelled: a page is the path it is written to.
 */
module ExportStatic {
  import opened Text
  import SearchData

  const SupportedLanguages: seq<string> := ["zh", "en", "es"]

  /** A row of the case query joined with `missing_persons_info`; `None` is SQL NULL. */
  datatype CaseRecord = CaseRecord(caseId: string, fullName: Option<string>, missingDate: string,
                                   urlPath: Option<string>)

  // ------------------------------------------------------------------ paths

  /** `url_path.replace(/^case\//i, '').toLowerCase()`. */
  function RelativePath(urlPath: string): (r: string)
    ensures NoUpper(r)
    ensures SearchData.HasCasePrefix(urlPath) ==> r == Lower(urlPath[5..])
    ensures !SearchData.HasCasePrefix(urlPath) ==> r == Lower(urlPath)
  {
    LowerNoUpper(SearchData.StripCasePrefix(urlPath));
    Lower(SearchData.StripCasePrefix(urlPath))
  }

  /** `relativePath.split('/')[0]`: the text before the first '/', or all of it. */
  function StateName(rel: string): (s: string)
    ensures '/' !in s
    ensures s <= rel
    ensures |s| < |rel| ==> rel[|s|] == '/'
  {
    Split(rel, '/')[0]
  }

  /** What `cityGroups[relativePath]` collects for a case. */
  datatype CityMember = CityMember(id: string, name: Option<string>, date: string, file: string)

  function Member(rec: CaseRecord): CityMember {
    CityMember(rec.caseId, rec.fullName, rec.missingDate, rec.caseId + ".html")
  }

  /** `${relativePath}/${record.case_id}.html`. */
  function DetailLink(rel: string, caseId: string): string {
    rel + "/" + caseId + ".html"
  }

  // ------------------------------------------------------------------ aggregation

  /**
   * The loop's dictionaries and arrays. Object keys of JavaScript come back
   * in insertion order, so each dictionary carries its key order.
   */
  datatype Index = Index(stateGroups: map<string, set<string>>, stateOrder: seq<string>,
                         cityGroups: map<string, seq<CityMember>>, cityOrder: seq<string>,
                         sitemapLinks: seq<string>)

  /** The relative path a case is exported under; `None` when it has no `url_path`. */
  function PathOf(rec: CaseRecord): Option<string> {
    if Given(rec.urlPath) then Some(RelativePath(rec.urlPath.value)) else None
  }

  /** One turn of the detail-page loop; a case without `url_path` is skipped. */
  function Step(ix: Index, rec: CaseRecord): Index {
    match PathOf(rec)
    case None => ix
    case Some(rel) =>
      var st := StateName(rel);
      Index(
        ix.stateGroups[st := (if st in ix.stateGroups then ix.stateGroups[st] else {}) + {rel}],
        if st in ix.stateGroups then ix.stateOrder else ix.stateOrder + [st],
        ix.cityGroups[rel := (if rel in ix.cityGroups then ix.cityGroups[rel] else []) + [Member(rec)]],
        if rel in ix.cityGroups then ix.cityOrder else ix.cityOrder + [rel],
        ix.sitemapLinks + [DetailLink(rel, rec.caseId)])
  }

  /** The state after the loop over `recs`. */
  function Collect(recs: seq<CaseRecord>): Index {
    if recs == [] then Index(map[], [], map[], [], [])
    else Step(Collect(recs[..|recs| - 1]), recs[|recs| - 1])
  }

  /** The case `recs[i]` is exported under `rel`. */
  predicate ExportedAs(recs: seq<CaseRecord>, i: int, rel: string) {
    0 <= i < |recs| && PathOf(recs[i]) == Some(rel)
  }

  /** Some case is exported under `rel`. */
  ghost predicate Exported(recs: seq<CaseRecord>, rel: string) {
    exists i :: ExportedAs(recs, i, rel)
  }

  lemma ExportedLast(recs: seq<CaseRecord>, rel: string)
    requires recs != []
    ensures Exported(recs, rel) <==> Exported(recs[..|recs| - 1], rel) || PathOf(recs[|recs| - 1]) == Some(rel)
  {
    var n := |recs| - 1;
    if Exported(recs, rel) {
      var i :| ExportedAs(recs, i, rel);
      if i < n {
        assert ExportedAs(recs[..n], i, rel);
      }
    }
    if Exported(recs[..n], rel) {
      var i :| ExportedAs(recs[..n], i, rel);
      assert ExportedAs(recs, i, rel);
    }
    if PathOf(recs[n]) == Some(rel) {
      assert ExportedAs(recs, n, rel);
    }
  }

  lemma StepStateKeys(ix: Index, rec: CaseRecord)
    requires Distinct(ix.stateOrder) && forall s :: s in ix.stateGroups <==> s in ix.stateOrder
    ensures var ix' := Step(ix, rec);
      Distinct(ix'.stateOrder) && forall s :: s in ix'.stateGroups <==> s in ix'.stateOrder
  {
  }

  lemma StepStates(ix: Index, rec: CaseRecord, s: string, rel: string)
    ensures var ix' := Step(ix, rec);
      s in ix'.stateGroups && rel in ix'.stateGroups[s] <==>
        (s in ix.stateGroups && rel in ix.stateGroups[s]) || (PathOf(rec) == Some(rel) && StateName(rel) == s)
  {
  }

  /** The state key order lists every state key, each once. */
  lemma {:induction false} CollectStateKeys(recs: seq<CaseRecord>)
    ensures var ix := Collect(recs);
      && Distinct(ix.stateOrder)
      && (forall s :: s in ix.stateGroups <==> s in ix.stateOrder)
  {
    if recs != [] {
      var n := |recs| - 1;
      CollectStateKeys(recs[..n]);
      StepStateKeys(Collect(recs[..n]), recs[n]);
    }
  }

  /** `stateGroups[s]` holds exactly the relative paths of the exported cases of state `s`. */
  lemma {:induction false} CollectStateMembers(recs: seq<CaseRecord>, s: string, rel: string)
    ensures var ix := Collect(recs);
      s in ix.stateGroups && rel in ix.stateGroups[s] <==> StateName(rel) == s && Exported(recs, rel)
  {
    if recs != [] {
      var n := |recs| - 1;
      CollectStateMembers(recs[..n], s, rel);
      ExportedLast(recs, rel);
      StepStates(Collect(recs[..n]), recs[n], s, rel);
    }
  }

  /** The cases exported under `rel`, in query order. */
  function MembersFor(recs: seq<CaseRecord>, rel: string): seq<CityMember> {
    if recs == [] then []
    else
      var n := |recs| - 1;
      MembersFor(recs[..n], rel) + if PathOf(recs[n]) == Some(rel) then [Member(recs[n])] else []
  }

  lemma StepCities(ix: Index, rec: CaseRecord, rel: string)
    requires Distinct(ix.cityOrder) && forall p :: p in ix.cityGroups <==> p in ix.cityOrder
    ensures var ix' := Step(ix, rec);
      && Distinct(ix'.cityOrder)
      && (forall p :: p in ix'.cityGroups <==> p in ix'.cityOrder)
      && (rel in ix'.cityGroups <==> rel in ix.cityGroups || PathOf(rec) == Some(rel))
      && (rel in ix'.cityGroups ==>
            ix'.cityGroups[rel] == (if rel in ix.cityGroups then ix.cityGroups[rel] else []) + (if PathOf(rec) == Some(rel) then [Member(rec)] else []))
  {
  }

  /**
   * The city key order lists every city key, each once.
   */
  lemma {:induction false} CollectCityKeys(recs: seq<CaseRecord>)
    ensures var ix := Collect(recs);
      Distinct(ix.cityOrder) && forall p :: p in ix.cityGroups <==> p in ix.cityOrder
  {
    if recs != [] {
      var n := |recs| - 1;
      CollectCityKeys(recs[..n]);
      StepCities(Collect(recs[..n]), recs[n], "");
    }
  }

  /** A city key exists exactly for an exported path, and its group lists that path's cases in query order. */
  lemma {:induction false} CollectCity(recs: seq<CaseRecord>, rel: string)
    ensures var ix := Collect(recs);
      && (rel in ix.cityGroups <==> Exported(recs, rel))
      && (rel in ix.cityGroups ==> ix.cityGroups[rel] == MembersFor(recs, rel))
      && (rel !in ix.cityGroups ==> MembersFor(recs, rel) == [])
  {
    if recs != [] {
      var n := |recs| - 1;
      CollectCity(recs[..n], rel);
      CollectCityKeys(recs[..n]);
      ExportedLast(recs, rel);
      StepCities(Collect(recs[..n]), recs[n], rel);
    }
  }

  /** The detail links, one per case with a `url_path`, in query order. */
  function DetailLinks(recs: seq<CaseRecord>): (ls: seq<string>)
    ensures |ls| <= |recs|
  {
    if recs == [] then []
    else if Given(recs[0].urlPath) then
      [DetailLink(RelativePath(recs[0].urlPath.value), recs[0].caseId)] + DetailLinks(recs[1..])
    else DetailLinks(recs[1..])
  }

  lemma DetailLinksAppend(recs: seq<CaseRecord>, rec: CaseRecord)
    ensures DetailLinks(recs + [rec]) ==
      DetailLinks(recs) + if Given(rec.urlPath) then [DetailLink(RelativePath(rec.urlPath.value), rec.caseId)] else []
  {
    if recs != [] {
      assert (recs + [rec])[1..] == recs[1..] + [rec];
      DetailLinksAppend(recs[1..], rec);
    }
  }

  /** The loop pushes exactly one detail link per case with a `url_path`, in query order. */
  lemma {:induction false} CollectLinks(recs: seq<CaseRecord>)
    ensures Collect(recs).sitemapLinks == DetailLinks(recs)
  {
    if recs != [] {
      var n := |recs| - 1;
      CollectLinks(recs[..n]);
      DetailLinksAppend(recs[..n], recs[n]);
      assert recs[..n] + [recs[n]] == recs;
    }
  }

  /** The detail-page loop of `run`. */
  method Aggregate(cases: seq<CaseRecord>)
    returns (stateGroups: map<string, set<string>>, stateOrder: seq<string>,
             cityGroups: map<string, seq<CityMember>>, cityOrder: seq<string>, sitemapLinks: seq<string>)
    ensures Index(stateGroups, stateOrder, cityGroups, cityOrder, sitemapLinks) == Collect(cases)
  {
    stateGroups, stateOrder, cityGroups, cityOrder, sitemapLinks := map[], [], map[], [], [];
    for i := 0 to |cases|
      invariant Index(stateGroups, stateOrder, cityGroups, cityOrder, sitemapLinks) == Collect(cases[..i])
    {
      assert cases[..i + 1][..i] == cases[..i];
      stateGroups, stateOrder, cityGroups, cityOrder, sitemapLinks :=
        AddRecord(stateGroups, stateOrder, cityGroups, cityOrder, sitemapLinks, cases[i]);
    }
    assert cases[..|cases|] == cases;
  }

  /** One turn of the loop. */
  method AddRecord(stateGroups0: map<string, set<string>>, stateOrder0: seq<string>,
                   cityGroups0: map<string, seq<CityMember>>, cityOrder0: seq<string>, sitemapLinks0: seq<string>,
                   record: CaseRecord)
    returns (stateGroups: map<string, set<string>>, stateOrder: seq<string>,
             cityGroups: map<string, seq<CityMember>>, cityOrder: seq<string>, sitemapLinks: seq<string>)
    ensures Index(stateGroups, stateOrder, cityGroups, cityOrder, sitemapLinks)
         == Step(Index(stateGroups0, stateOrder0, cityGroups0, cityOrder0, sitemapLinks0), record)
  {
    stateGroups, stateOrder, cityGroups, cityOrder, sitemapLinks := stateGroups0, stateOrder0, cityGroups0, cityOrder0, sitemapLinks0;
    if !Given(record.urlPath) {
      return;
    }
    var relativePath := RelativePath(record.urlPath.value);
    var stateName := StateName(relativePath);
    assert PathOf(record) == Some(relativePath);
    stateGroups, stateOrder := AddToGroup(stateGroups, stateOrder, stateName, relativePath);
    cityGroups, cityOrder := AddToList(cityGroups, cityOrder, relativePath, Member(record));
    sitemapLinks := sitemapLinks + [DetailLink(relativePath, record.caseId)];
  }

  /** `if (!groups[key]) groups[key] = new Set(); groups[key].add(x)`. */
  method AddToGroup(groups0: map<string, set<string>>, order0: seq<string>, key: string, x: string)
    returns (groups: map<string, set<string>>, order: seq<string>)
    ensures groups == groups0[key := (if key in groups0 then groups0[key] else {}) + {x}]
    ensures order == if key in groups0 then order0 else order0 + [key]
  {
    groups, order := groups0, order0;
    if key !in groups {
      groups := groups[key := {}];
      order := order + [key];
    }
    groups := groups[key := groups[key] + {x}];
  }

  /** `if (!groups[key]) groups[key] = []; groups[key].push(x)`. */
  method AddToList(groups0: map<string, seq<CityMember>>, order0: seq<string>, key: string, x: CityMember)
    returns (groups: map<string, seq<CityMember>>, order: seq<string>)
    ensures groups == groups0[key := (if key in groups0 then groups0[key] else []) + [x]]
    ensures order == if key in groups0 then order0 else order0 + [key]
  {
    groups, order := groups0, order0;
    if key !in groups {
      groups := groups[key := []];
      order := order + [key];
    }
    groups := groups[key := groups[key] + [x]];
  }

  // ------------------------------------------------------------------ index pages, search index, sitemap

  /** `${key}/index.html` for each key, in order. */
  function IndexLinks(keys: seq<string>): (ls: seq<string>)
    ensures |ls| == |keys| && forall i :: 0 <= i < |keys| ==> ls[i] == keys[i] + "/index.html"
  {
    seq(|keys|, i requires 0 <= i < |keys| => keys[i] + "/index.html")
  }

  /** The city-index and state-index loops: one page and one sitemap link per key. */
  method PushIndexPages(keys: seq<string>, links: seq<string>) returns (r: seq<string>)
    ensures r == links + IndexLinks(keys)
  {
    r := links;
    for i := 0 to |keys|
      invariant r == links + IndexLinks(keys[..i])
    {
      assert IndexLinks(keys[..i + 1]) == IndexLinks(keys[..i]) + [keys[i] + "/index.html"];
      r := r + [keys[i] + "/index.html"];
    }
    assert keys[..|keys|] == keys;
  }

  /** `https://${currentLanguage}.miissing.gudq.com`. */
  function SiteUrl(lang: string): string {
    "https://" + lang + ".miissing.gudq.com"
  }

  /** `search_data.txt`'s lines: `full_name|url_path` without its `case/`, for cases with both. */
  function SearchIndexLines(cases: seq<CaseRecord>): (ls: seq<string>)
    ensures |ls| <= |cases|
  {
    if cases == [] then []
    else
      var c := cases[0];
      (if Given(c.fullName) && Given(c.urlPath)
       then [c.fullName.value + "|" + SearchData.StripCasePrefix(c.urlPath.value)] else [])
      + SearchIndexLines(cases[1..])
  }

  function SearchIndex(cases: seq<CaseRecord>): string {
    Join(SearchIndexLines(cases), "\n")
  }

  /** No name or path carries a line break. */
  predicate OneLine(cases: seq<CaseRecord>) {
    forall i :: 0 <= i < |cases| ==>
      (cases[i].fullName.Some? ==> '\n' !in cases[i].fullName.value)
      && (cases[i].urlPath.Some? ==> '\n' !in cases[i].urlPath.value)
  }

  lemma StripKeepsOneLine(p: string)
    requires '\n' !in p
    ensures '\n' !in SearchData.StripCasePrefix(p)
  {
    if SearchData.HasCasePrefix(p) {
      assert forall k :: 0 <= k < |p| - 5 ==> p[5..][k] == p[k + 5];
    }
  }

  lemma {:induction false} SearchIndexLinesOneLine(cases: seq<CaseRecord>)
    requires OneLine(cases)
    ensures forall i :: 0 <= i < |SearchIndexLines(cases)| ==> '\n' !in SearchIndexLines(cases)[i]
  {
    if cases != [] {
      var c := cases[0];
      assert OneLine(cases[1..]) by {
        assert forall i :: 0 <= i < |cases| - 1 ==> cases[1..][i] == cases[i + 1];
      }
      SearchIndexLinesOneLine(cases[1..]);
      if Given(c.fullName) && Given(c.urlPath) {
        StripKeepsOneLine(c.urlPath.value);
      }
    }
  }

  /**
   * When no field carries a line break, `search_data.txt` splits back into
   * its lines, one per case with both a name and a path, path letter case kept.
   */
  lemma SearchIndexSplits(cases: seq<CaseRecord>)
    requires OneLine(cases)
    requires SearchIndexLines(cases) != []
    ensures Split(SearchIndex(cases), '\n') == SearchIndexLines(cases)
  {
    SearchIndexLinesOneLine(cases);
    SplitJoin(SearchIndexLines(cases), '\n');
  }

  /** `<url><loc>${baseUrl}/${link}</loc></url>` for each link, concatenated. */
  function UrlEntries(links: seq<string>, baseUrl: string): string {
    if links == [] then []
    else "<url><loc>" + baseUrl + "/" + links[0] + "</loc></url>" + UrlEntries(links[1..], baseUrl)
  }

  const SitemapHead: string :=
    "<?xml version=\"1.0\" encoding=\"UTF-8\"?><urlset xmlns=\"http://www.sitemaps.org/schemas/sitemap/0.9\">\n      "

  /** `generateSitemap`'s document. */
  function Sitemap(links: seq<string>, baseUrl: string): string {
    SitemapHead + UrlEntries(links, baseUrl) + "</urlset>"
  }

  // ------------------------------------------------------------------ run

  /** What a run writes under the language's root: the HTML pages in write order, and two text files. */
  datatype Site = Site(pages: seq<string>, searchIndex: Option<string>, sitemap: Option<string>)

  /** The links `generateSitemap` receives: detail, city, state, then the home page ''. */
  function SitemapLinks(ix: Index): seq<string> {
    ix.sitemapLinks + IndexLinks(ix.cityOrder) + IndexLinks(ix.stateOrder) + [""]
  }

  /** `run()`; `None` for a language outside zh/en/es, where nothing is written. */
  function ExportSite(lang: string, caseIdArg: Option<string>, cases: seq<CaseRecord>): Option<Site> {
    if lang !in SupportedLanguages then None
    else
      var ix := Collect(cases);
      if Given(caseIdArg) then Some(Site(ix.sitemapLinks, None, None))
      else
        Some(Site(ix.sitemapLinks + IndexLinks(ix.cityOrder) + IndexLinks(ix.stateOrder) + ["index.html"],
                  Some(SearchIndex(cases)), Some(Sitemap(SitemapLinks(ix), SiteUrl(lang)))))
  }

  /** `run()` with its loops; the query result is `cases`. */
  method Run(lang: string, caseIdArg: Option<string>, cases: seq<CaseRecord>) returns (site: Option<Site>)
    ensures site == ExportSite(lang, caseIdArg, cases)
  {
    if lang !in SupportedLanguages {
      return None;
    }
    var stateGroups, stateOrder, cityGroups, cityOrder, sitemapLinks := Aggregate(cases);
    if Given(caseIdArg) {
      return Some(Site(sitemapLinks, None, None));
    }
    var pages := PushIndexPages(cityOrder, sitemapLinks);
    pages := PushIndexPages(stateOrder, pages);
    sitemapLinks := pages + [""];
    pages := pages + ["index.html"];
    var searchIndex := SearchIndex(cases);
    site := Some(Site(pages, Some(searchIndex), Some(Sitemap(sitemapLinks, SiteUrl(lang)))));
  }

  /**
   * Outside zh/en/es nothing is written. With a case argument only detail
   * pages are written. Otherwise every page written has its sitemap entry,
   * in the same order, the home page '' being `index.html`; there is one
   * detail page per case with a `url_path`, one city index per city path and
   * one state index per state.
   */
  lemma ExportSiteMeaning(lang: string, caseIdArg: Option<string>, cases: seq<CaseRecord>)
    ensures ExportSite(lang, caseIdArg, cases).None? <==> lang !in SupportedLanguages
    ensures lang in SupportedLanguages && Given(caseIdArg) ==>
      ExportSite(lang, caseIdArg, cases) == Some(Site(DetailLinks(cases), None, None))
    ensures lang in SupportedLanguages && !Given(caseIdArg) ==>
      var site := ExportSite(lang, caseIdArg, cases).value;
      var links := SitemapLinks(Collect(cases));
      && |site.pages| == |links|
      && (forall i :: 0 <= i < |links| ==> site.pages[i] == if links[i] == "" then "index.html" else links[i])
      && site.sitemap == Some(Sitemap(links, SiteUrl(lang)))
      && site.searchIndex == Some(SearchIndex(cases))
  {
    CollectLinks(cases);
    DetailLinksNonEmpty(cases);
    if lang in SupportedLanguages && !Given(caseIdArg) {
      var ix := Collect(cases);
      var links := SitemapLinks(ix);
      var site := ExportSite(lang, caseIdArg, cases).value;
      forall i | 0 <= i < |links| ensures site.pages[i] == if links[i] == "" then "index.html" else links[i] {
        if i < |links| - 1 {
          assert site.pages[i] == links[i];
          LinkNotHome(ix, i);
        }
      }
    }
  }

  /** Only the last sitemap link is the home page's ''. */
  lemma LinkNotHome(ix: Index, i: nat)
    requires forall j :: 0 <= j < |ix.sitemapLinks| ==> ix.sitemapLinks[j] != []
    requires i < |SitemapLinks(ix)| - 1
    ensures SitemapLinks(ix)[i] != ""
  {
    var links := SitemapLinks(ix);
    var d, c := |ix.sitemapLinks|, |ix.cityOrder|;
    if i < d {
      assert links[i] == ix.sitemapLinks[i];
    } else if i < d + c {
      assert links[i] == IndexLinks(ix.cityOrder)[i - d];
    } else {
      assert links[i] == IndexLinks(ix.stateOrder)[i - d - c];
    }
  }

  lemma {:induction false} DetailLinksNonEmpty(recs: seq<CaseRecord>)
    ensures forall j :: 0 <= j < |DetailLinks(recs)| ==> DetailLinks(recs)[j] != []
  {
    if recs != [] {
      DetailLinksNonEmpty(recs[1..]);
    }
  }

  // ------------------------------------------------------------------ tags and messages

  /** `tag[`name_${lang}`] || tag.name || ''`. */
  function TagName(localName: Option<string>, name: Option<string>): (r: string)
    ensures Given(localName) ==> r == localName.value
    ensures !Given(localName) && Given(name) ==> r == name.value
    ensures !Given(localName) && !Given(name) ==> r == ""
  {
    if Given(localName) then localName.value else if Given(name) then name.value else ""
  }

  /** Every whitespace character turned into '-'. */
  function SpacesToDashes(s: string): (r: string)
    ensures |r| == |s|
    ensures forall k :: 0 <= k < |s| ==> r[k] == if IsJsSpace(s[k]) then '-' else s[k]
  {
    seq(|s|, k requires 0 <= k < |s| => if IsJsSpace(s[k]) then '-' else s[k])
  }

  /** `tagName.toLowerCase().replace(/\s+/g, '-')`: each whitespace run becomes one '-'. */
  function TagSlug(tagName: string): string {
    SpacesToDashes(Collapse(Js, Lower(tagName)))
  }

  /**
   * A slug has no whitespace and no upper-case letter, is no longer than the
   * name, and a name without whitespace only loses its capitals.
   */
  lemma TagSlugShape(tagName: string)
    ensures var r := TagSlug(tagName);
      && (forall k :: 0 <= k < |r| ==> !IsJsSpace(r[k]) && !('A' <= r[k] <= 'Z'))
      && |r| <= |tagName|
      && ((forall k :: 0 <= k < |tagName| ==> !IsJsSpace(tagName[k])) ==> r == Lower(tagName))
  {
    var l := Lower(tagName);
    var c := Collapse(Js, l);
    LowerNoUpper(tagName);
    assert forall k :: 0 <= k < |l| ==> IsJsSpace(l[k]) == IsJsSpace(tagName[k]);
    CollapseNoUpper(l);
    if forall k :: 0 <= k < |tagName| ==> !IsJsSpace(tagName[k]) {
      CollapseNoSpace(l);
    }
  }

  lemma {:induction false} CollapseNoUpper(s: string)
    requires NoUpper(s)
    ensures NoUpper(Collapse(Js, s))
    decreases |s|
  {
    if s != [] {
      if IsJsSpace(s[0]) {
        CollapseNoUpper(s[LeadingSpaces(Js, s)..]);
      } else {
        CollapseNoUpper(s[1..]);
      }
    }
  }

  lemma {:induction false} CollapseNoSpace(s: string)
    requires forall k :: 0 <= k < |s| ==> !IsJsSpace(s[k])
    ensures Collapse(Js, s) == s
    decreases |s|
  {
    if s != [] {
      CollapseNoSpace(s[1..]);
    }
  }

  /** `tag.cases_count || 1`: a missing or zero count shows as 1. */
  function CasesCount(count: Option<int>): (r: int)
    ensures r != 0
    ensures count.Some? && count.value != 0 ==> r == count.value
  {
    if count.Some? && count.value != 0 then count.value else 1
  }

  /**
   * `i18n.formatMessage(key)`: the first 'ui.' anywhere in the key is
   * removed, and the entry found under what is left gives the text for
   * the language, when it has a non-empty one; otherwise the key itself.
   */
  function FormatMessage(key: string, translations: map<string, map<string, string>>, lang: string): (r: string)
    ensures r == key || exists k :: k in translations && lang in translations[k] && r == translations[k][lang]
  {
    var actualKey := ReplaceFirst(key, "ui.", "");
    if actualKey in translations && lang in translations[actualKey] && translations[actualKey][lang] != []
    then translations[actualKey][lang]
    else key
  }

  /** A key 'ui.<k>' is looked up under `<k>`, and a key without 'ui.' under itself. */
  lemma FormatMessageKey(k: string, translations: map<string, map<string, string>>, lang: string)
    ensures k in translations && lang in translations[k] && translations[k][lang] != [] ==>
      FormatMessage("ui." + k, translations, lang) == translations[k][lang]
    ensures !Contains(k, "ui.") && k in translations && lang in translations[k] && translations[k][lang] != [] ==>
      FormatMessage(k, translations, lang) == translations[k][lang]
    ensures !Contains(k, "ui.") && !(k in translations && lang in translations[k] && translations[k][lang] != []) ==>
      FormatMessage(k, translations, lang) == k
  {
    var key := "ui." + k;
    assert "ui." <= key;
    assert IndexOf(key, "ui.") == 0;
    assert key[3..] == k;
    assert ReplaceFirst(key, "ui.", "") == k;
    if !Contains(k, "ui.") {
      ReplaceFirstAbsent(k, "ui.", "");
    }
  }
}
