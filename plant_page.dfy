/**
 * What the PFAF page scrapers (`analyze_plant_details.js`,
 * `config/analyze_plant_details.js` and the two image-extraction scripts)
 * share: reading a text or attribute as `?.trim() || null`, normalising an
 * image URL, the non-plant image filter, the label lookup in a PFAF summary
 * table, dropping records whose values are all null, and counting the
 * extracted fields. The HTML parser is not modelled: each member takes what
 * its selectors find.
 */
module PlantPage {
  import opened Text

  // ---------------------------------------------------------------- reading values

  /** `v?.trim() || null`: an absent value, or one that trims to nothing, reads as null. */
  function Attr(v: Option<string>): (r: Option<string>)
    ensures r.None? <==> v.None? || Blank(Js, v.value)
    ensures r.Some? ==> r.value == Trim(Js, v.value) && r.value != []
  {
    if v.None? then None
    else
      var t := Trim(Js, v.value);
      if t == [] then None else Some(t)
  }

  /** Reading a value that was already read changes nothing. */
  lemma AttrIdempotent(v: Option<string>)
    ensures Attr(Attr(v)) == Attr(v)
  {
    if v.Some? {
      TrimIdempotent(Js, v.value);
    }
  }

  // ---------------------------------------------------------------- image URLs

  const PfafBase := "https://pfaf.org"

  /** `normalizeImageUrl(url, baseUrl)`. */
  function NormalizeImageUrl(url: Option<string>, base: string): (r: Option<string>)
    ensures r.Some? <==> Given(url)
  {
    if !Given(url) then None
    else
      var u := url.value;
      if "http" <= u then url
      else if "../" <= u then Some(base + u[2..])
      else if "/" <= u then Some(base + u)
      else Some(base + "/" + u)
  }

  /** Against an absolute base every normalised URL is absolute. */
  lemma NormalizedAbsolute(url: Option<string>, base: string)
    requires "http" <= base
    ensures var r := NormalizeImageUrl(url, base); r.Some? ==> "http" <= r.value
  {
    if Given(url) && !("http" <= url.value) {
      var u := url.value;
      var r := NormalizeImageUrl(url, base).value;
      if "../" <= u {
        assert r == base + u[2..];
      } else if "/" <= u {
        assert r == base + u;
      } else {
        assert r == base + ("/" + u);
      }
      assert r[..|base|] == base;
      assert base[..4] == "http";
    }
  }

  /** Normalising twice is normalising once. */
  lemma NormalizeIdempotent(url: Option<string>, base: string)
    requires "http" <= base
    ensures NormalizeImageUrl(NormalizeImageUrl(url, base), base) == NormalizeImageUrl(url, base)
  {
    NormalizedAbsolute(url, base);
  }

  /** Parent-relative and root-relative paths name the same file under the base. */
  lemma RelativeResolves(x: string, base: string)
    ensures NormalizeImageUrl(Some("../" + x), base) == Some(base + "/" + x)
    ensures NormalizeImageUrl(Some("/" + x), base) == Some(base + "/" + x)
  {
    var p := "../" + x;
    assert Given(Some(p));
    assert !("http" <= p) by { assert p[0] != "http"[0]; }
    assert "../" <= p;
    assert p[2..] == "/" + x;
    assert base + p[2..] == base + "/" + x;
    var q := "/" + x;
    assert Given(Some(q));
    assert !("http" <= q) by { assert q[0] != "http"[0]; }
    assert !("../" <= q) by { assert q[0] != "../"[0]; }
    assert "/" <= q;
    assert base + q == base + "/" + x;
  }

  // ---------------------------------------------------------------- non-plant images

  const NonPlantPatterns: seq<string> :=
    ["icon", "rating", "spacer", "placeholder", "loading", "searchV1b",
     "advert", "book", "gif", "water2.jpg", "water3.jpg", "sun.jpg"]

  /** `isNonPlantImage(src)`: no source, or its lower-cased text holds one of the patterns. */
  predicate IsNonPlantImage(src: Option<string>) {
    !Given(src) || exists k :: 0 <= k < |NonPlantPatterns| && Contains(Lower(src.value), NonPlantPatterns[k])
  }

  /** The pattern 'searchV1b' has an upper-case letter, so the lower-cased source never holds it. */
  lemma SearchPatternNeverMatches(src: string)
    ensures !Contains(Lower(src), NonPlantPatterns[5])
  {
    var s := Lower(src);
    var p := NonPlantPatterns[5];
    assert p == "searchV1b";
    forall i | 0 <= i <= |s| ensures !(p <= s[i..]) {
      if i + |p| <= |s| {
        assert s[i + 6] != 'V';
        assert s[i..][6] != p[6];
      }
    }
    assert IndexOf(s, p) == -1;
  }

  // ---------------------------------------------------------------- PFAF label lookup

  /**
   * What `b:contains(label)` leads to: `None` when no such element exists;
   * otherwise the texts of the cells after the first in the enclosing row
   * (`None` when there is no row) and the text of the span in the next cell
   * (`None` when there is none).
   */
  datatype LabelSite = LabelSite(rowCells: Option<seq<string>>, span: Option<string>)

  /** A cell the lookup passes over: empty once trimmed, or the label itself. */
  predicate Skipped(cell: string, labelText: string) {
    var t := Trim(Js, cell);
    t == [] || t == labelText
  }

  /** The first cell from `k` on that `skip` does not pass over, or `|cells|` when there is none. */
  function FirstKept(cells: seq<string>, skip: string -> bool, k: nat): (i: nat)
    requires k <= |cells|
    ensures k <= i <= |cells|
    ensures i < |cells| ==> !skip(cells[i])
    ensures forall j :: k <= j < i ==> skip(cells[j])
    decreases |cells| - k
  {
    if k == |cells| || !skip(cells[k]) then k
    else FirstKept(cells, skip, k + 1)
  }

  /** The first cell the lookup takes, or `|cells|` when it takes none. */
  function FirstValue(cells: seq<string>, labelText: string): nat {
    FirstKept(cells, cell => Skipped(cell, labelText), 0)
  }

  /** The first value cell is the one the lookup's conditions single out. */
  lemma FirstValueIs(cells: seq<string>, labelText: string, i: nat)
    requires i <= |cells|
    requires forall j :: 0 <= j < i ==> Skipped(cells[j], labelText)
    requires i < |cells| ==> !Skipped(cells[i], labelText)
    ensures FirstValue(cells, labelText) == i
  {
  }

  function CellsOf(site: LabelSite): seq<string> {
    if site.rowCells.Some? then site.rowCells.value else []
  }

  /** `extractPFAFText($, label)`: the first value cell, else the adjacent span's text, else null. */
  function PfafText(site: Option<LabelSite>, labelText: string): (r: Option<string>)
    ensures r.Some? ==> site.Some? && r.value != []
    ensures r.Some? ==> !IsJsSpace(r.value[0]) && !IsJsSpace(r.value[|r.value| - 1])
  {
    if site.None? then None
    else
      var cells := CellsOf(site.value);
      var i := FirstValue(cells, labelText);
      if i < |cells| then Some(Trim(Js, cells[i])) else Attr(site.value.span)
  }

  /** A row with a value cell gives that cell, never the label; the span is read only for a row without one. */
  lemma PfafTextFromRow(site: LabelSite, labelText: string)
    ensures var cells := CellsOf(site); var i := FirstValue(cells, labelText);
      i < |cells| ==> PfafText(Some(site), labelText) == Some(Trim(Js, cells[i])) && Trim(Js, cells[i]) != labelText
    ensures FirstValue(CellsOf(site), labelText) == |CellsOf(site)| ==> PfafText(Some(site), labelText) == Attr(site.span)
  {
  }

  /** The `for` loop over the value cells, then the span fallback. */
  method ExtractPfafText(site: Option<LabelSite>, labelText: string) returns (r: Option<string>)
    ensures r == PfafText(site, labelText)
  {
    if site.None? {
      return None;
    }

    var cells := CellsOf(site.value);
    for i := 0 to |cells|
      invariant forall j :: 0 <= j < i ==> Skipped(cells[j], labelText)
    {
      var text := Trim(Js, cells[i]);
      if text != [] && text != labelText {
        FirstValueIs(cells, labelText, i);
        return Some(text);
      }
    }
    FirstValueIs(cells, labelText, |cells|);
    r := Attr(site.value.span);
  }

  /** `extractPFAFText($, labelText)`, given where each label lands. */
  function Pfaf(labelSite: string -> Option<LabelSite>, labelText: string): Option<string> {
    PfafText(labelSite(labelText), labelText)
  }

  /** `extractPFAFText($, a) || extractPFAFText($, b)`. */
  function PfafEither(labelSite: string -> Option<LabelSite>, a: string, b: string): Option<string> {
    if Pfaf(labelSite, a).Some? then Pfaf(labelSite, a) else Pfaf(labelSite, b)
  }

  /** `safeExtractText($, selector)`, given the text of each selector: the trimmed text, or null when blank. */
  function SafeText(text: string -> string, selector: string): Option<string> {
    Attr(Some(text(selector)))
  }

  /** A read value: null, or a non-empty text with no white space at either end. */
  predicate Tidy(v: Option<string>) {
    v.Some? ==> v.value != [] && !IsJsSpace(v.value[0]) && !IsJsSpace(v.value[|v.value| - 1])
  }

  /** The PFAF lookups and `safeExtractText` give tidy values, whatever the page. */
  lemma ReadersTidy(labelSite: string -> Option<LabelSite>, text: string -> string)
    ensures forall l :: Tidy(Pfaf(labelSite, l))
    ensures forall a, b :: Tidy(PfafEither(labelSite, a, b))
    ensures forall sel :: Tidy(SafeText(text, sel))
  {
    forall l ensures Tidy(Pfaf(labelSite, l)) {
      PfafTidy(labelSite(l), l);
    }
    forall a, b ensures Tidy(PfafEither(labelSite, a, b)) {
      PfafTidy(labelSite(a), a);
      PfafTidy(labelSite(b), b);
    }
    forall sel ensures Tidy(SafeText(text, sel)) {
      AttrTidy(Some(text(sel)));
    }
  }

  lemma PfafTidy(site: Option<LabelSite>, labelText: string)
    ensures Tidy(PfafText(site, labelText))
  {
  }

  lemma AttrTidy(v: Option<string>)
    ensures Tidy(Attr(v))
  {
  }

  // ---------------------------------------------------------------- records with data

  /**
   * The `.each` loops that build a record per element and push it when one
   * of its values is not null: the records of `raws` made by `make` that
   * `hasData`, in order.
   */
  function Filled<R, T>(raws: seq<R>, make: R -> T, hasData: T -> bool): (kept: seq<T>)
    ensures |kept| <= |raws|
    ensures forall k :: 0 <= k < |kept| ==> hasData(kept[k])
  {
    if raws == [] then []
    else
      var init := Filled(raws[..|raws| - 1], make, hasData);
      var x := make(raws[|raws| - 1]);
      if hasData(x) then init + [x] else init
  }

  /** A record is kept exactly when it has data and some element makes it. */
  lemma {:induction false} FilledMembers<R, T>(raws: seq<R>, make: R -> T, hasData: T -> bool, x: T)
    ensures x in Filled(raws, make, hasData) <==> hasData(x) && exists i :: 0 <= i < |raws| && make(raws[i]) == x
  {
    if raws != [] {
      var n := |raws| - 1;
      FilledMembers(raws[..n], make, hasData, x);
      if exists i :: 0 <= i < |raws| && make(raws[i]) == x {
        var i :| 0 <= i < |raws| && make(raws[i]) == x;
        if i < n {
          assert raws[..n][i] == raws[i];
        }
      }
      if exists i :: 0 <= i < n && make(raws[..n][i]) == x {
        var i :| 0 <= i < n && make(raws[..n][i]) == x;
        assert raws[i] == raws[..n][i];
      }
    }
  }

  method KeepFilled<R, T>(raws: seq<R>, make: R -> T, hasData: T -> bool) returns (kept: seq<T>)
    ensures kept == Filled(raws, make, hasData)
  {
    kept := [];
    for i := 0 to |raws|
      invariant kept == Filled(raws[..i], make, hasData)
    {
      assert raws[..i + 1][..i] == raws[..i];
      var x := make(raws[i]);
      if hasData(x) {
        kept := kept + [x];
      }
    }
    assert raws[..|raws|] == raws;
  }

  /** `Object.values(record).some(value => value !== null)`. */
  predicate SomeValue(values: seq<Option<string>>) {
    exists k :: 0 <= k < |values| && values[k].Some?
  }

  /** The twelve values a `.plant-item` holds under its selectors, as the parser gives them. */
  datatype RawRelatedPlant = RawRelatedPlant(
    latinName: string, commonName: string, family: string, edibilityRating: string,
    medicinalRating: string, usdaHardiness: string, habitats: string, range: string,
    knownHazards: string, weedPotential: string, physicalCharacteristics: string,
    imageSrc: Option<string>)

  datatype RelatedPlant = RelatedPlant(
    latinName: Option<string>, commonName: Option<string>, family: Option<string>,
    edibilityRating: Option<string>, medicinalRating: Option<string>, usdaHardiness: Option<string>,
    habitats: Option<string>, range: Option<string>, knownHazards: Option<string>,
    weedPotential: Option<string>, physicalCharacteristics: Option<string>, imageUrl: Option<string>)

  function RelatedValues(p: RelatedPlant): seq<Option<string>> {
    [p.latinName, p.commonName, p.family, p.edibilityRating, p.medicinalRating, p.usdaHardiness,
     p.habitats, p.range, p.knownHazards, p.weedPotential, p.physicalCharacteristics, p.imageUrl]
  }

  predicate RelatedHasData(p: RelatedPlant) { SomeValue(RelatedValues(p)) }

  /**
   * The record `extractRelatedPlants` builds for one item as written: every
   * field is `safeExtractText($(element), selector)` (or `safeExtractAttr`),
   * whose first parameter is then a Cheerio selection rather than the
   * page's `$` function. Calling it as `$(selector)` throws a TypeError,
   * the `catch` returns null, and so every field is null whatever the item holds.
   */
  function RelatedAsWritten(r: RawRelatedPlant): (p: RelatedPlant)
    ensures !RelatedHasData(p)
  {
    RelatedPlant(None, None, None, None, None, None, None, None, None, None, None, None)
  }

  /** No item ever gives a record with data, so nothing is pushed. */
  lemma {:induction false} RelatedPlantsAlwaysEmpty(items: seq<RawRelatedPlant>)
    ensures Filled(items, RelatedAsWritten, RelatedHasData) == []
  {
    if items != [] {
      RelatedPlantsAlwaysEmpty(items[..|items| - 1]);
    }
  }

  /** `extractRelatedPlants($)` as written: the related-plant list is always empty. */
  method ExtractRelatedPlants(items: seq<RawRelatedPlant>) returns (plants: seq<RelatedPlant>)
    ensures plants == Filled(items, RelatedAsWritten, RelatedHasData)
    ensures plants == []
  {
    plants := KeepFilled(items, RelatedAsWritten, RelatedHasData);
    RelatedPlantsAlwaysEmpty(items);
  }

  /**
   * The record the item evidently should give, each selector read inside
   * the item (`$(element).find(selector)`): its trimmed text, or null when blank.
   */
  function RelatedOf(r: RawRelatedPlant): RelatedPlant {
    RelatedPlant(
      Attr(Some(r.latinName)), Attr(Some(r.commonName)), Attr(Some(r.family)),
      Attr(Some(r.edibilityRating)), Attr(Some(r.medicinalRating)), Attr(Some(r.usdaHardiness)),
      Attr(Some(r.habitats)), Attr(Some(r.range)), Attr(Some(r.knownHazards)),
      Attr(Some(r.weedPotential)), Attr(Some(r.physicalCharacteristics)), Attr(r.imageSrc))
  }

  /** `extractRelatedPlants` reading each selector inside its item. */
  method ExtractRelatedPlantsIntended(items: seq<RawRelatedPlant>) returns (plants: seq<RelatedPlant>)
    ensures plants == Filled(items, RelatedOf, RelatedHasData)
  {
    plants := KeepFilled(items, RelatedOf, RelatedHasData);
  }

  /** Read inside the item, a related plant is kept exactly when one of its twelve values is not blank. */
  lemma RelatedKept(items: seq<RawRelatedPlant>, r: RawRelatedPlant)
    requires r in items
    ensures RelatedOf(r) in Filled(items, RelatedOf, RelatedHasData) <==>
      || !Blank(Js, r.latinName) || !Blank(Js, r.commonName) || !Blank(Js, r.family)
      || !Blank(Js, r.edibilityRating) || !Blank(Js, r.medicinalRating) || !Blank(Js, r.usdaHardiness)
      || !Blank(Js, r.habitats) || !Blank(Js, r.range) || !Blank(Js, r.knownHazards)
      || !Blank(Js, r.weedPotential) || !Blank(Js, r.physicalCharacteristics)
      || (r.imageSrc.Some? && !Blank(Js, r.imageSrc.value))
  {
    var i :| 0 <= i < |items| && items[i] == r;
    var p := RelatedOf(r);
    FilledMembers(items, RelatedOf, RelatedHasData, p);
    assert RelatedOf(items[i]) == p;
    RelatedHasDataIff(p);
  }

  /** A related plant has data exactly when one of its twelve fields is not null. */
  lemma RelatedHasDataIff(p: RelatedPlant)
    ensures RelatedHasData(p) <==>
      || p.latinName.Some? || p.commonName.Some? || p.family.Some? || p.edibilityRating.Some?
      || p.medicinalRating.Some? || p.usdaHardiness.Some? || p.habitats.Some? || p.range.Some?
      || p.knownHazards.Some? || p.weedPotential.Some? || p.physicalCharacteristics.Some? || p.imageUrl.Some?
  {
    var vs := RelatedValues(p);
    assert vs[0] == p.latinName && vs[1] == p.commonName && vs[2] == p.family && vs[3] == p.edibilityRating;
    assert vs[4] == p.medicinalRating && vs[5] == p.usdaHardiness && vs[6] == p.habitats && vs[7] == p.range;
    assert vs[8] == p.knownHazards && vs[9] == p.weedPotential && vs[10] == p.physicalCharacteristics;
    assert vs[11] == p.imageUrl;
  }

  /** The three attributes `extractCareIcons` reads for one `.care-icons .icon`. */
  datatype RawCareIcon = RawCareIcon(dataType: Option<string>, dataLevel: Option<string>, title: Option<string>)

  datatype CareIcon = CareIcon(kind: Option<string>, level: Option<string>, description: Option<string>)

  function CareIconOf(r: RawCareIcon): CareIcon {
    CareIcon(Attr(r.dataType), Attr(r.dataLevel), Attr(r.title))
  }

  predicate CareIconHasData(c: CareIcon) { SomeValue([c.kind, c.level, c.description]) }

  /** `extractCareIcons($)`. */
  method ExtractCareIcons(items: seq<RawCareIcon>) returns (icons: seq<CareIcon>)
    ensures icons == Filled(items, CareIconOf, CareIconHasData)
  {
    icons := KeepFilled(items, CareIconOf, CareIconHasData);
  }

  /** An icon without a single non-blank attribute is dropped; any other is kept. */
  lemma CareIconKept(items: seq<RawCareIcon>, r: RawCareIcon)
    requires r in items
    ensures CareIconOf(r) in Filled(items, CareIconOf, CareIconHasData) <==>
      Attr(r.dataType).Some? || Attr(r.dataLevel).Some? || Attr(r.title).Some?
  {
    var i :| 0 <= i < |items| && items[i] == r;
    var c := CareIconOf(r);
    FilledMembers(items, CareIconOf, CareIconHasData, c);
    assert CareIconOf(items[i]) == c;
    SomeOfThree(c.kind, c.level, c.description);
  }

  lemma SomeOfThree(a: Option<string>, b: Option<string>, c: Option<string>)
    ensures SomeValue([a, b, c]) <==> a.Some? || b.Some? || c.Some?
  {
    var vs := [a, b, c];
    assert vs[0] == a && vs[1] == b && vs[2] == c;
  }

  // ---------------------------------------------------------------- field counting

  /** A value of the details object: a text (or null), or an array of `n` records. */
  datatype Value = Text(text: Option<string>) | Items(n: nat)

  /** The filter of `calculateAnalysisResult`: a non-empty array, or a value that is not null, undefined or ''. */
  predicate Extracted(v: Value) {
    match v
    case Items(n) => n > 0
    case Text(t) => t.Some? && t.value != []
  }

  /** The number of extracted values. */
  function CountExtracted(values: seq<Value>): (n: nat)
    ensures n <= |values|
  {
    if values == [] then 0
    else CountExtracted(values[..|values| - 1]) + (if Extracted(values[|values| - 1]) then 1 else 0)
  }

  /** Every value extracted: the count is the number of keys. */
  lemma {:induction false} CountAllExtracted(values: seq<Value>)
    requires forall k :: 0 <= k < |values| ==> Extracted(values[k])
    ensures CountExtracted(values) == |values|
  {
    if values != [] {
      CountAllExtracted(values[..|values| - 1]);
    }
  }

  /** Every value but the one at `j` extracted: the count is one less than the number of keys. */
  lemma {:induction false} CountAllButOne(values: seq<Value>, j: nat)
    requires j < |values| && !Extracted(values[j])
    requires forall k :: 0 <= k < |values| && k != j ==> Extracted(values[k])
    ensures CountExtracted(values) == |values| - 1
  {
    var n := |values| - 1;
    if j == n {
      CountAllExtracted(values[..n]);
    } else {
      CountAllButOne(values[..n], j);
    }
  }

  /** The count grows with the values: extracting one more never lowers it. */
  lemma {:induction false} CountPointwise(a: seq<Value>, b: seq<Value>)
    requires |a| == |b|
    requires forall k :: 0 <= k < |a| && Extracted(a[k]) ==> Extracted(b[k])
    ensures CountExtracted(a) <= CountExtracted(b)
  {
    if a != [] {
      CountPointwise(a[..|a| - 1], b[..|b| - 1]);
    }
  }

  /** `list.length > 0 ? JSON.stringify(list) : null` for an array column. */
  function StoredList<T>(items: seq<T>, encode: seq<T> -> string): (r: Option<string>)
    ensures r.None? <==> items == []
    ensures r.Some? ==> r.value == encode(items)
  {
    if |items| > 0 then Some(encode(items)) else None
  }

  /**
   * The `values` of an `INSERT` that saves `texts` as they are, then three
   * lists as JSON text, or null when empty.
   */
  function StoredRow<A, B, C>(texts: seq<Option<string>>, a: seq<A>, encA: seq<A> -> string,
                              b: seq<B>, encB: seq<B> -> string, c: seq<C>, encC: seq<C> -> string)
    : (row: seq<Option<string>>)
    ensures |row| == |texts| + 3 && row[..|texts|] == texts
    ensures row[|texts|].None? <==> a == []
    ensures row[|texts| + 1].None? <==> b == []
    ensures row[|texts| + 2].None? <==> c == []
  {
    texts + [StoredList(a, encA), StoredList(b, encB), StoredList(c, encC)]
  }

  /** The saved columns as the count sees them: the texts, then the lengths of the three lists. */
  function StoredValues(texts: seq<Option<string>>, na: nat, nb: nat, nc: nat): (vs: seq<Value>)
    ensures |vs| == |texts| + 3
  {
    seq(|texts|, k requires 0 <= k < |texts| => Text(texts[k])) + [Items(na), Items(nb), Items(nc)]
  }

  /**
   * A saved column counts exactly when the row holds a non-empty value in
   * it, given that the JSON text of a non-empty list is never empty.
   */
  lemma StoredValuesMatchRow<A, B, C>(texts: seq<Option<string>>, a: seq<A>, encA: seq<A> -> string,
                                      b: seq<B>, encB: seq<B> -> string, c: seq<C>, encC: seq<C> -> string)
    requires a != [] ==> encA(a) != []
    requires b != [] ==> encB(b) != []
    requires c != [] ==> encC(c) != []
    ensures var row := StoredRow(texts, a, encA, b, encB, c, encC);
      var vs := StoredValues(texts, |a|, |b|, |c|);
      forall k :: 0 <= k < |row| ==> (Extracted(vs[k]) <==> row[k].Some? && row[k].value != [])
  {
  }
}
