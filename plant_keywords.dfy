/**
 * `extractKeywords($, latinName)` of `analyze_plant_details.js`: the
 * lower-cased words of the page title (without the site name), the
 * lower-cased Latin name, then the words of ten PFAF fields, each word kept
 * once in first-insertion order and joined with ", ". A word is kept when it
 * is longer than two characters and not all digits.
 */
module PlantKeywords {
  import opened Text

  const SiteName := "PFAF Plant Database"

  /** Case-insensitively, a match of `SiteName` starts at `i`. */
  predicate SiteNameAt(s: string, i: nat) {
    i + |SiteName| <= |s| && Lower(s[i..i + |SiteName|]) == Lower(SiteName)
  }

  /** `s.replace(/PFAF Plant Database/gi, '')`: the matches, taken left to right without overlap, removed. */
  function RemoveSiteName(s: string): (r: string)
    ensures |r| <= |s|
    decreases |s|
  {
    if |s| < |SiteName| then s
    else if SiteNameAt(s, 0) then RemoveSiteName(s[|SiteName|..])
    else [s[0]] + RemoveSiteName(s[1..])
  }

  /** A title without the site name is left as it is. */
  lemma {:induction false} RemoveNothing(s: string)
    requires forall i :: 0 <= i <= |s| ==> !SiteNameAt(s, i)
    ensures RemoveSiteName(s) == s
    decreases |s|
  {
    if |s| >= |SiteName| {
      assert !SiteNameAt(s, 0);
      forall i | 0 <= i <= |s| - 1 ensures !SiteNameAt(s[1..], i) {
        SiteNameAtTail(s, i);
      }
      RemoveNothing(s[1..]);
    }
  }

  lemma SiteNameAtTail(s: string, i: nat)
    requires s != []
    ensures SiteNameAt(s[1..], i) <==> SiteNameAt(s, i + 1)
  {
    if i + |SiteName| <= |s| - 1 {
      assert s[1..][i..i + |SiteName|] == s[i + 1..i + 1 + |SiteName|];
    }
  }

  lemma RemoveStep(s: string)
    requires |s| >= |SiteName| && !SiteNameAt(s, 0)
    ensures RemoveSiteName(s) == [s[0]] + RemoveSiteName(s[1..])
  {
  }

  lemma TailNoMatch(s: string, i: nat)
    requires s != [] && forall j :: 0 <= j < i ==> !SiteNameAt(s, j)
    ensures forall j :: 0 <= j < i - 1 ==> !SiteNameAt(s[1..], j)
  {
    forall j | 0 <= j < i - 1 ensures !SiteNameAt(s[1..], j) {
      SiteNameAtTail(s, j);
    }
  }

  lemma ConsSlice(s: string, i: nat, rest: string)
    requires 0 < i <= |s|
    ensures [s[0]] + (s[1..][..i - 1] + rest) == s[..i] + rest
  {
    assert [s[0]] + s[1..][..i - 1] == s[..i];
  }

  /** The text before the first match is kept, the match removed, and the scan goes on after it. */
  lemma {:induction false} RemoveFirstMatch(s: string, i: nat)
    requires SiteNameAt(s, i)
    requires forall j :: 0 <= j < i ==> !SiteNameAt(s, j)
    ensures RemoveSiteName(s) == s[..i] + RemoveSiteName(s[i + |SiteName|..])
  {
    if i > 0 {
      var t := s[1..];
      RemoveStep(s);
      TailNoMatch(s, i);
      SiteNameAtTail(s, i - 1);
      RemoveFirstMatch(t, i - 1);
      var rest := RemoveSiteName(s[i + |SiteName|..]);
      assert t[i - 1 + |SiteName|..] == s[i + |SiteName|..];
      assert RemoveSiteName(t) == t[..i - 1] + rest;
      ConsSlice(s, i, rest);
    } else {
      assert s[..0] == [];
      assert RemoveSiteName(s) == RemoveSiteName(s[|SiteName|..]);
    }
  }

  // ---------------------------------------------------------------- words

  predicate NoSep(w: string, isSep: char -> bool) {
    forall k :: 0 <= k < |w| ==> !isSep(w[k])
  }

  /** The separators of the field values: `[,;\s]`. */
  predicate FieldSep(c: char) { c == ',' || c == ';' || IsJsSpace(c) }

  /** The length of the run of non-separators that starts `s`. */
  function WordLength(s: string, isSep: char -> bool): (n: nat)
    ensures n <= |s|
    ensures forall k :: 0 <= k < n ==> !isSep(s[k])
    ensures n < |s| ==> isSep(s[n])
  {
    if s == [] || isSep(s[0]) then 0 else 1 + WordLength(s[1..], isSep)
  }

  lemma {:induction false} WordLengthIs(s: string, isSep: char -> bool, n: nat)
    requires n <= |s| && NoSep(s[..n], isSep)
    requires n < |s| ==> isSep(s[n])
    ensures WordLength(s, isSep) == n
  {
    if n > 0 {
      assert s[..n][0] == s[0];
      assert s[1..][..n - 1] == s[..n][1..];
      WordLengthIs(s[1..], isSep, n - 1);
    }
  }

  /**
   * The non-empty pieces of `s.split(/sep+/)`: the empty pieces the split
   * gives at the ends are shorter than any kept word, so the filter that
   * follows drops them anyway.
   */
  function Words(s: string, isSep: char -> bool): (r: seq<string>)
    ensures forall k :: 0 <= k < |r| ==> r[k] != [] && NoSep(r[k], isSep)
    decreases |s|
  {
    if s == [] then []
    else
      var n := WordLength(s, isSep);
      if n == 0 then Words(s[1..], isSep) else [s[..n]] + Words(s[n..], isSep)
  }

  /** Splitting words joined by one separator gives the words back. */
  lemma {:induction false} WordsJoin(ws: seq<string>, c: char, isSep: char -> bool)
    requires isSep(c)
    requires forall k :: 0 <= k < |ws| ==> ws[k] != [] && NoSep(ws[k], isSep)
    ensures Words(Join(ws, [c]), isSep) == ws
  {
    if |ws| == 1 {
      WordsLast(ws[0], isSep);
    } else if |ws| > 1 {
      WordsNext(ws[0], c, Join(ws[1..], [c]), isSep);
      WordsJoin(ws[1..], c, isSep);
      assert ws == [ws[0]] + ws[1..];
    }
  }

  lemma WordsLast(w: string, isSep: char -> bool)
    requires w != [] && NoSep(w, isSep)
    ensures Words(w, isSep) == [w]
  {
    assert w[..|w|] == w;
    WordLengthIs(w, isSep, |w|);
    assert w[|w|..] == [];
  }

  lemma WordsNext(w: string, c: char, rest: string, isSep: char -> bool)
    requires w != [] && NoSep(w, isSep) && isSep(c)
    ensures Words(w + [c] + rest, isSep) == [w] + Words(rest, isSep)
  {
    var s := w + [c] + rest;
    assert s[..|w|] == w;
    WordLengthIs(s, isSep, |w|);
    assert s[|w|..] == [c] + rest;
    assert ([c] + rest)[1..] == rest;
  }

  // ---------------------------------------------------------------- eligible words

  predicate AllDigits(w: string) {
    w != [] && forall k :: 0 <= k < |w| ==> IsDigit(w[k])
  }

  /** `word.length > 2 && !/^[0-9]+$/.test(word)`. */
  predicate Eligible(w: string) { |w| > 2 && !AllDigits(w) }

  /** The eligible words, in order, lower-cased. */
  function EligibleLower(ws: seq<string>): seq<string> {
    if ws == [] then []
    else
      var last := ws[|ws| - 1];
      EligibleLower(ws[..|ws| - 1]) + (if Eligible(last) then [Lower(last)] else [])
  }

  /** What a keyword taken from a word looks like. */
  predicate Keyword(x: string, isSep: char -> bool) {
    Eligible(x) && NoUpper(x) && NoSep(x, isSep)
  }

  /** Lower-casing keeps a word's length, its separators and its having a non-digit. */
  lemma LowerKeyword(w: string, isSep: char -> bool)
    requires Eligible(w) && NoSep(w, isSep)
    requires forall c :: isSep(c) ==> !('a' <= c <= 'z')
    ensures Keyword(Lower(w), isSep)
  {
    LowerNoUpper(w);
    forall k | 0 <= k < |w| ensures !isSep(Lower(w)[k]) {
      assert !isSep(w[k]);
    }
    var k :| 0 <= k < |w| && !IsDigit(w[k]);
    assert !IsDigit(Lower(w)[k]);
  }

  lemma {:induction false} EligibleLowerShape(ws: seq<string>, isSep: char -> bool)
    requires forall k :: 0 <= k < |ws| ==> NoSep(ws[k], isSep)
    requires forall c :: isSep(c) ==> !('a' <= c <= 'z')
    ensures forall k :: 0 <= k < |EligibleLower(ws)| ==> Keyword(EligibleLower(ws)[k], isSep)
  {
    if ws != [] {
      var last := ws[|ws| - 1];
      EligibleLowerShape(ws[..|ws| - 1], isSep);
      if Eligible(last) {
        LowerKeyword(last, isSep);
      }
    }
  }

  // ---------------------------------------------------------------- candidates

  /** The words of the title, when there is one, without the site name. */
  function TitleKeywords(title: Option<string>): seq<string> {
    if Given(title) then EligibleLower(Words(Trim(Js, RemoveSiteName(title.value)), IsJsSpace)) else []
  }

  /** The Latin name, lower-cased and unfiltered, when it is set. */
  function LatinKeyword(latinName: Option<string>): seq<string> {
    if Given(latinName) then [Lower(latinName.value)] else []
  }

  /** The keywords of one field value. */
  function ValueKeywords(v: Option<string>): seq<string> {
    if Given(v) then EligibleLower(Words(v.value, FieldSep)) else []
  }

  /** The keywords of the field values, in field order. */
  function FieldKeywords(values: seq<Option<string>>): seq<string> {
    if values == [] then []
    else FieldKeywords(values[..|values| - 1]) + ValueKeywords(values[|values| - 1])
  }

  /** Every word added to the set, in the order of the `keywords.add` calls. */
  function Candidates(title: Option<string>, latinName: Option<string>, values: seq<Option<string>>): seq<string> {
    TitleKeywords(title) + LatinKeyword(latinName) + FieldKeywords(values)
  }

  /** `Array.from(keywords).join(', ')`. */
  function Keywords(title: Option<string>, latinName: Option<string>, values: seq<Option<string>>): string {
    Join(Dedup(Candidates(title, latinName, values)), ", ")
  }

  /** The PFAF fields whose values give keywords, in the order they are read. */
  const PlantFields: seq<string> := [
    "Common Name", "Family", "USDA hardiness", "Known Hazards",
    "Habitats", "Range", "Edibility Rating", "Other Uses Rating",
    "Weed Potential", "Medicinal Rating"]

  /** A candidate is the Latin name or a keyword. */
  predicate LatinOrKeyword(x: string, latinName: Option<string>) {
    (Given(latinName) && x == Lower(latinName.value)) || Keyword(x, IsJsSpace)
  }

  /**
   * Each keyword is distinct; apart from the lower-cased Latin name, each is a
   * lower-case word of more than two characters, not all digits and without
   * whitespace.
   */
  lemma KeywordsShape(title: Option<string>, latinName: Option<string>, values: seq<Option<string>>)
    ensures var ks := Dedup(Candidates(title, latinName, values));
      Distinct(ks) && forall k :: 0 <= k < |ks| ==> LatinOrKeyword(ks[k], latinName)
  {
    var cs := Candidates(title, latinName, values);
    CandidatesShape(title, latinName, values);
    var ks := Dedup(cs);
    forall k | 0 <= k < |ks| ensures LatinOrKeyword(ks[k], latinName) {
      assert ks[k] in cs;
    }
  }

  lemma CandidatesShape(title: Option<string>, latinName: Option<string>, values: seq<Option<string>>)
    ensures forall x :: x in Candidates(title, latinName, values) ==> LatinOrKeyword(x, latinName)
  {
    TitleKeywordsShape(title);
    FieldKeywordsShape(values);
    var t := TitleKeywords(title);
    var l := LatinKeyword(latinName);
    var f := FieldKeywords(values);
    assert forall x :: x in t + l + f ==> x in t || x in l || x in f;
  }

  lemma TitleKeywordsShape(title: Option<string>)
    ensures forall k :: 0 <= k < |TitleKeywords(title)| ==> Keyword(TitleKeywords(title)[k], IsJsSpace)
  {
    if Given(title) {
      EligibleLowerShape(Words(Trim(Js, RemoveSiteName(title.value)), IsJsSpace), IsJsSpace);
    }
  }

  lemma {:induction false} FieldKeywordsShape(values: seq<Option<string>>)
    ensures forall k :: 0 <= k < |FieldKeywords(values)| ==>
      Keyword(FieldKeywords(values)[k], FieldSep) && Keyword(FieldKeywords(values)[k], IsJsSpace)
  {
    if values != [] {
      FieldKeywordsShape(values[..|values| - 1]);
      var v := values[|values| - 1];
      if Given(v) {
        EligibleLowerShape(Words(v.value, FieldSep), FieldSep);
      }
    }
  }

  // ---------------------------------------------------------------- the set

  /** The `Set` and its insertion order after the words `added`. */
  ghost predicate Inserted(seen: set<string>, order: seq<string>, added: seq<string>) {
    order == Dedup(added) && seen == Elements(added)
  }

  ghost function Elements(s: seq<string>): set<string> {
    set x | x in s
  }

  lemma DedupSnoc(added: seq<string>, w: string)
    ensures Dedup(added + [w]) == if w in added then Dedup(added) else Dedup(added) + [w]
    ensures Elements(added + [w]) == Elements(added) + {w}
  {
    assert (added + [w])[..|added|] == added;
  }

  /** `keywords.add(w)`. */
  method Add(seen: set<string>, order: seq<string>, ghost added: seq<string>, w: string)
    returns (seen': set<string>, order': seq<string>)
    requires Inserted(seen, order, added)
    ensures Inserted(seen', order', added + [w])
  {
    DedupSnoc(added, w);
    if w in seen {
      seen', order' := seen, order;
    } else {
      seen', order' := seen + {w}, order + [w];
    }
  }

  /** `words.filter(...).forEach(word => keywords.add(word.toLowerCase()))`. */
  method AddEligible(seen: set<string>, order: seq<string>, ghost added: seq<string>, words: seq<string>)
    returns (seen': set<string>, order': seq<string>)
    requires Inserted(seen, order, added)
    ensures Inserted(seen', order', added + EligibleLower(words))
  {
    seen', order' := seen, order;
    assert added + EligibleLower(words[..0]) == added;
    for i := 0 to |words|
      invariant Inserted(seen', order', added + EligibleLower(words[..i]))
    {
      assert words[..i + 1][..i] == words[..i];
      var w := words[i];
      if |w| > 2 && !AllDigits(w) {
        seen', order' := Add(seen', order', added + EligibleLower(words[..i]), Lower(w));
        assert added + EligibleLower(words[..i]) + [Lower(w)] == added + EligibleLower(words[..i + 1]);
      } else {
        assert EligibleLower(words[..i + 1]) == EligibleLower(words[..i]);
      }
    }
    assert words[..|words|] == words;
  }

  /** The `for (const field of plantFields)` loop, given the value read for each field. */
  method AddFields(seen: set<string>, order: seq<string>, ghost added: seq<string>, values: seq<Option<string>>)
    returns (seen': set<string>, order': seq<string>)
    requires Inserted(seen, order, added)
    ensures Inserted(seen', order', added + FieldKeywords(values))
  {
    seen', order' := seen, order;
    ghost var done := added;
    assert values[..0] == [];
    for i := 0 to |values|
      invariant done == added + FieldKeywords(values[..i])
      invariant Inserted(seen', order', done)
    {
      assert values[..i + 1][..i] == values[..i];
      var value := values[i];
      if Given(value) {
        var words := Words(value.value, FieldSep);
        seen', order' := AddEligible(seen', order', done, words);
      } else {
        assert done + ValueKeywords(value) == done;
      }
      assert FieldKeywords(values[..i + 1]) == FieldKeywords(values[..i]) + ValueKeywords(value);
      Assoc(added, FieldKeywords(values[..i]), ValueKeywords(value));
      done := done + ValueKeywords(value);
    }
    assert values[..|values|] == values;
  }

  lemma Assoc(a: seq<string>, b: seq<string>, c: seq<string>)
    ensures a + b + c == a + (b + c)
  {
  }

  /**
   * `extractKeywords`, given the page title as read (`null` when blank), the
   * Latin name and the values read for `PlantFields`.
   */
  method ExtractKeywords(title: Option<string>, latinName: Option<string>, values: seq<Option<string>>)
    returns (r: string)
    ensures r == Keywords(title, latinName, values)
  {
    var seen: set<string> := {};
    var order: seq<string> := [];
    ghost var added: seq<string> := [];
    assert Elements(added) == {};
    if Given(title) {
      var cleanTitle := Trim(Js, RemoveSiteName(title.value));
      var titleWords := Words(cleanTitle, IsJsSpace);
      seen, order := AddEligible(seen, order, added, titleWords);
      assert added + EligibleLower(titleWords) == TitleKeywords(title);
    }
    added := TitleKeywords(title);
    if Given(latinName) {
      seen, order := Add(seen, order, added, Lower(latinName.value));
    } else {
      assert added + LatinKeyword(latinName) == added;
    }
    added := added + LatinKeyword(latinName);
    seen, order := AddFields(seen, order, added, values);
    r := Join(order, ", ");
  }
}
