/**
 * The local search index: `generate:search-data` writes one
 * `name|case id|path` line per case, and the two search-page scripts read the
 * file back, filter it by a query and render the matches.
 */
module SearchData {
  import opened Text

  /** A `missing_persons_info` row as the query returns it; `None` is SQL NULL. */
  datatype CaseRow = CaseRow(id: int, fullName: Option<string>, caseId: Option<string>, path: Option<string>)

  /** A row that has all three columns the index needs. */
  datatype Entry = Entry(fullName: string, caseId: string, path: string)

  const Languages: seq<string> := ["zh", "en", "es"]

  predicate HasCasePrefix(p: string) {
    |p| >= 5 && Lower(p[..5]) == "case/"
  }

  /** `p.replace(/^case\//i, '')`: one leading `case/`, in any letter case, is dropped. */
  function StripCasePrefix(p: string): (r: string)
    ensures HasCasePrefix(p) ==> |r| + 5 == |p| && p[5..] == r
    ensures !HasCasePrefix(p) ==> r == p
  {
    if HasCasePrefix(p) then p[5..] else p
  }

  /** The `whereNotNull('path').whereNotNull('full_name').whereNotNull('case_id')` filter. */
  function Selected(rows: seq<CaseRow>): (es: seq<Entry>)
    ensures |es| <= |rows|
    ensures forall e :: e in es <==> exists r :: r in rows && r.fullName == Some(e.fullName)
                                             && r.caseId == Some(e.caseId) && r.path == Some(e.path)
  {
    if rows == [] then []
    else
      var r := rows[0];
      var rest := Selected(rows[1..]);
      assert forall x :: x in rows <==> x == r || x in rows[1..];
      if r.fullName.Some? && r.caseId.Some? && r.path.Some? then
        [Entry(r.fullName.value, r.caseId.value, r.path.value)] + rest
      else rest
  }

  function SearchLine(e: Entry): string {
    e.fullName + "|" + e.caseId + "|" + StripCasePrefix(e.path)
  }

  function SearchLines(es: seq<Entry>): (ls: seq<string>)
    ensures |ls| == |es|
    ensures forall i :: 0 <= i < |es| ==> ls[i] == SearchLine(es[i])
  {
    seq(|es|, i requires 0 <= i < |es| => SearchLine(es[i]))
  }

  /** The content of `dist/search_local.txt`: one line per case, no trailing newline. */
  function SearchFile(rows: seq<CaseRow>): string {
    Join(SearchLines(Selected(rows)), "\n")
  }

  /** The per-language loop: the same file is written for zh, en and es. */
  function SearchFiles(rows: seq<CaseRow>): (files: seq<(string, string)>)
    ensures |files| == |Languages|
    ensures forall i :: 0 <= i < |files| ==> files[i] == (Languages[i], SearchFile(rows))
  {
    seq(|Languages|, i requires 0 <= i < |Languages| => (Languages[i], SearchFile(rows)))
  }
}

/** The search page script that filters with `includes`. */
module SearchPage {
  import opened Text
  import opened SearchData

  /** `{name: p[0], caseNo: p[1], path: p[2]}`; `None` stands for `undefined`. */
  datatype Item = Item(name: string, caseNo: Option<string>, path: Option<string>)

  function ParseLine(l: string): Item {
    var p := Split(l, '|');
    Item(p[0], if |p| > 1 then Some(p[1]) else None, if |p| > 2 then Some(p[2]) else None)
  }

  /** `.filter(l => l.trim())`. */
  function NonBlank(ls: seq<string>): (r: seq<string>)
    ensures |r| <= |ls|
    ensures forall l :: l in r <==> l in ls && !Blank(Js, l)
  {
    if ls == [] then []
    else
      assert forall x :: x in ls <==> x == ls[0] || x in ls[1..];
      (if Blank(Js, ls[0]) then [] else [ls[0]]) + NonBlank(ls[1..])
  }

  function ParseLines(ls: seq<string>): (items: seq<Item>)
    ensures |items| == |ls|
    ensures forall i :: 0 <= i < |ls| ==> items[i] == ParseLine(ls[i])
  {
    seq(|ls|, i requires 0 <= i < |ls| => ParseLine(ls[i]))
  }

  /** `t.split("\n").filter(l => l.trim()).map(...)`. */
  function Parse(t: string): seq<Item> {
    ParseLines(NonBlank(Split(t, '\n')))
  }

  /** The item a search line written for `e` should read back as. */
  function Expected(e: Entry): Item {
    Item(e.fullName, Some(e.caseId), Some(StripCasePrefix(e.path)))
  }

  predicate CleanField(s: string) { '|' !in s && '\n' !in s }

  predicate CleanEntry(e: Entry) { CleanField(e.fullName) && CleanField(e.caseId) && CleanField(e.path) }

  lemma StripKeepsClean(p: string)
    requires CleanField(p)
    ensures CleanField(StripCasePrefix(p))
  {
    var r := StripCasePrefix(p);
    if HasCasePrefix(p) {
      assert forall k :: 0 <= k < |r| ==> r[k] == p[k + 5];
    }
  }

  lemma ParseSearchLine(e: Entry)
    requires CleanEntry(e)
    ensures ParseLine(SearchLine(e)) == Expected(e)
    ensures '\n' !in SearchLine(e) && !Blank(Js, SearchLine(e))
  {
    var c := StripCasePrefix(e.path);
    StripKeepsClean(e.path);
    var parts := [e.fullName, e.caseId, c];
    JoinThree(e.fullName, e.caseId, c);
    SplitJoin(parts, '|');
    var l := SearchLine(e);
    assert l[|e.fullName|] == '|';
    assert !IsSpace(Js, '|');
    NoNewline(e.fullName, e.caseId, c);
  }

  lemma JoinThree(a: string, b: string, c: string)
    ensures Join([a, b, c], "|") == a + "|" + b + "|" + c
  {
    assert [a, b, c][1..] == [b, c];
    assert [b, c][1..] == [c];
    assert Join([b, c], "|") == b + "|" + c;
    assert Join([a, b, c], "|") == a + "|" + (b + "|" + c);
  }

  lemma NoNewline(a: string, b: string, c: string)
    requires '\n' !in a && '\n' !in b && '\n' !in c
    ensures '\n' !in a + "|" + b + "|" + c
  {
    var l := a + "|" + b + "|" + c;
    assert l == a + ("|" + (b + ("|" + c)));
  }

  lemma {:induction false} NonBlankAll(ls: seq<string>)
    requires forall i :: 0 <= i < |ls| ==> !Blank(Js, ls[i])
    ensures NonBlank(ls) == ls
  {
    if ls != [] { NonBlankAll(ls[1..]); }
  }

  /**
   * Reading back what `generate:search-data` wrote gives every selected case,
   * in query order, as long as no field holds '|' or a newline.
   */
  lemma SearchFileRoundTrip(rows: seq<CaseRow>)
    requires forall e :: e in Selected(rows) ==> CleanEntry(e)
    ensures var es := Selected(rows);
      Parse(SearchFile(rows)) == seq(|es|, i requires 0 <= i < |es| => Expected(es[i]))
  {
    var es := Selected(rows);
    var ls := SearchLines(es);
    forall i | 0 <= i < |ls| ensures '\n' !in ls[i] && !Blank(Js, ls[i]) && ParseLine(ls[i]) == Expected(es[i]) {
      ParseSearchLine(es[i]);
    }
    if ls == [] {
      assert Split([], '\n') == [[]];
      assert Blank(Js, []);
    } else {
      SplitJoin(ls, '\n');
      NonBlankAll(ls);
    }
  }

  predicate NameMatches(it: Item, q: string) { Contains(Lower(it.name), Lower(q)) }

  /**
   * `data.filter(i => i.name.toLowerCase().includes(q') || i.caseNo.toLowerCase().includes(q'))`;
   * `None` is the TypeError raised by an item without a case number whose name does not match.
   */
  function FilterIncludes(data: seq<Item>, q: string): (r: Option<seq<Item>>)
    ensures r.None? <==> exists i :: 0 <= i < |data| && !NameMatches(data[i], q) && data[i].caseNo.None?
    ensures r.Some? ==> |r.value| <= |data|
    ensures r.Some? ==> forall x :: x in r.value ==>
                          (x in data && (NameMatches(x, q) || Contains(Lower(x.caseNo.value), Lower(q))))
    ensures r.Some? ==> forall x :: x in data && (NameMatches(x, q) || Contains(Lower(x.caseNo.value), Lower(q)))
                          ==> x in r.value
  {
    if data == [] then Some([])
    else
      var it := data[0];
      var rest := FilterIncludes(data[1..], q);
      assert forall x :: x in data <==> x == it || x in data[1..];
      assert forall i :: 1 <= i < |data| ==> data[i] == data[1..][i - 1];
      if NameMatches(it, q) then
        (match rest case Some(f) => Some([it] + f) case None => None)
      else if it.caseNo.None? then None
      else if Contains(Lower(it.caseNo.value), Lower(q)) then
        (match rest case Some(f) => Some([it] + f) case None => None)
      else rest
  }

  /** `String(v)` of a possibly undefined property. */
  function Shown(o: Option<string>): string {
    match o
    case Some(s) => s
    case None => "undefined"
  }

  function Div(it: Item): string {
    "<div onclick=\"window.location.href=\\'" + Shown(it.path) + "\\'\">" + it.name + " - " + Shown(it.caseNo) + "</div>"
  }

  /** `f.map(Div).join("")`. */
  function Divs(f: seq<Item>): string {
    if f == [] then [] else Div(f[0]) + Divs(f[1..])
  }

  const NoResultZh: string := "无结果"

  /**
   * The content of the result element once the input handler has finished:
   * empty for an empty query; otherwise the match list, or the no-result text,
   * or the "..." placeholder left behind when filtering throws.
   */
  function Respond(data: seq<Item>, q: string): (html: string)
    ensures q == [] ==> html == []
    ensures q != [] && FilterIncludes(data, q) == Some([]) ==> html == NoResultZh
    ensures q != [] && FilterIncludes(data, q).None? ==> html == "..."
    ensures q != [] && FilterIncludes(data, q).Some? && FilterIncludes(data, q).value != []
            ==> html == Divs(FilterIncludes(data, q).value)
  {
    if q == [] then []
    else match FilterIncludes(data, q)
      case None => "..."
      case Some(f) => if |f| > 0 then Divs(f) else NoResultZh
  }

  /** The page: the module-level `data` and the result element's content. */
  class SearchBox {
    var data: seq<Item>
    var results: string

    constructor ()
      ensures data == [] && results == []
    {
      data := [];
      results := [];
    }

    /** The fetch callback: `data` becomes the parsed file. */
    method Load(t: string)
      modifies this
      ensures data == Parse(t) && results == old(results)
    {
      data := Parse(t);
    }

    /** The `oninput` handler, taken together with its timeout callback. */
    method OnInput(q: string)
      modifies this
      ensures results == Respond(data, q) && data == old(data)
    {
      if q == [] {
        results := [];
        return;
      }
      results := "...";
      var f := FilterIncludes(data, q);
      if f.Some? {
        results := if |f.value| > 0 then Divs(f.value) else NoResultZh;
      }
    }
  }
}

/** The search page script that filters with `indexOf` and builds the markup in a loop. */
module SearchScript {
  import opened Text
  import opened SearchPage

  /** The `indexOf(q') != -1` filter. */
  function FilterIndexOf(data: seq<Item>, q: string): Option<seq<Item>> {
    if data == [] then Some([])
    else
      var it := data[0];
      var rest := FilterIndexOf(data[1..], q);
      if IndexOf(Lower(it.name), Lower(q)) != -1 then
        (match rest case Some(f) => Some([it] + f) case None => None)
      else if it.caseNo.None? then None
      else if IndexOf(Lower(it.caseNo.value), Lower(q)) != -1 then
        (match rest case Some(f) => Some([it] + f) case None => None)
      else rest
  }

  /** The two scripts select exactly the same items, in the same order. */
  lemma {:induction false} FiltersAgree(data: seq<Item>, q: string)
    ensures FilterIndexOf(data, q) == FilterIncludes(data, q)
  {
    if data != [] { FiltersAgree(data[1..], q); }
  }

  /** The `for` loop that appends one div per match to `h`. */
  method BuildResults(f: seq<Item>) returns (h: string)
    ensures h == Divs(f)
  {
    h := "";
    var i := 0;
    while i < |f|
      invariant 0 <= i <= |f|
      invariant h + Divs(f[i..]) == Divs(f)
    {
      DivsStep(f, i, h);
      h := h + Div(f[i]);
      i := i + 1;
    }
  }

  /** Moving the div of item `i` from the pending part to the built part. */
  lemma DivsStep(f: seq<Item>, i: nat, h: string)
    requires i < |f| && h + Divs(f[i..]) == Divs(f)
    ensures (h + Div(f[i])) + Divs(f[i + 1..]) == Divs(f)
  {
    assert f[i..][1..] == f[i + 1..];
    assert Divs(f[i..]) == Div(f[i]) + Divs(f[i + 1..]);
    ConcatAssoc(h, Div(f[i]), Divs(f[i + 1..]));
  }

  lemma ConcatAssoc(a: string, b: string, c: string)
    ensures a + (b + c) == (a + b) + c
  {
  }

  const NoResultEn: string := "No results"

  function RespondEn(data: seq<Item>, q: string): (html: string)
    ensures q == [] ==> html == []
    ensures q != [] && FilterIncludes(data, q) == Some([]) ==> html == NoResultEn
    ensures q != [] && FilterIncludes(data, q).Some? && FilterIncludes(data, q) != Some([])
            ==> html == Respond(data, q)
    ensures q != [] && FilterIncludes(data, q).None? ==> html == "..."
  {
    FiltersAgree(data, q);
    if q == [] then []
    else match FilterIndexOf(data, q)
      case None => "..."
      case Some(f) => if |f| > 0 then Divs(f) else NoResultEn
  }

  class LocalSearchBox {
    var data: seq<Item>
    var results: string

    constructor ()
      ensures data == [] && results == []
    {
      data := [];
      results := [];
    }

    method Load(t: string)
      modifies this
      ensures data == Parse(t) && results == old(results)
    {
      data := Parse(t);
    }

    method OnInput(q: string)
      modifies this
      ensures results == RespondEn(data, q) && data == old(data)
    {
      if q == [] {
        results := [];
      } else {
        results := "...";
        var f := FilterIndexOf(data, q);
        if f.Some? {
          var h := BuildResults(f.value);
          results := if |f.value| > 0 then h else NoResultEn;
        }
      }
    }
  }
}
