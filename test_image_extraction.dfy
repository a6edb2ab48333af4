/**
 * `extractImages($)` of `config/test_image_extraction.js`, the three-pass
 * version: the main-table images, then the `.plant-images` ones, then every
 * other `<img>` worth keeping, each later pass skipping a URL already
 * collected; then every relative URL is rewritten in place against the PFAF
 * site.
 */
module TestImageExtraction {
  import opened Text
  import opened PlantPage
  import opened PlantImages
  import opened ConfigAnalyzePlantDetails

  /**
   * An image record as pushed; a key the pass does not write (`width` and
   * `height` in the second pass, `caption` in the others) is `None`.
   */
  datatype Found = Found(url: Option<string>, alt: Option<string>, title: Option<string>,
                         width: Option<string>, height: Option<string>, caption: Option<string>)

  /** The record the first and third passes build from an `<img>`. */
  function FromTag(t: ImgTag): Found {
    Found(Attr(t.src), Attr(t.alt), Attr(t.title), Attr(t.width), Attr(t.height), None)
  }

  /** The record the second pass builds from a `.plant-images img`. */
  function FromPlantImage(r: RawImage): Found {
    var i := ImageOf(r);
    Found(i.url, i.alt, i.title, None, None, i.caption)
  }

  predicate TagHasData(f: Found) { SomeValue([f.url, f.alt, f.title, f.width, f.height]) }

  predicate PlantImageHasData(f: Found) { SomeValue([f.url, f.alt, f.title, f.caption]) }

  /** `images.some(existing => existing.url === url)`; two nulls are equal under `===`. */
  predicate HasFoundUrl(images: seq<Found>, url: Option<string>) {
    exists k :: 0 <= k < |images| && images[k].url == url
  }

  /** `[src*="placeholder"]` and the like: a substring of the raw attribute, case kept. */
  predicate Excluded(t: ImgTag) {
    t.src.Some? &&
    (Contains(t.src.value, "placeholder") || Contains(t.src.value, "spacer") || Contains(t.src.value, "loading"))
  }

  /** The third pass keeps an `<img>` its selector finds whose URL has more than five characters. */
  predicate Supplementary(t: ImgTag) {
    !Excluded(t) && Attr(t.src).Some? && |Attr(t.src).value| > 5
  }

  /** The records of the third pass's candidates, in document order. */
  function SupplementaryImages(tags: seq<ImgTag>): (r: seq<Found>)
    ensures forall k :: 0 <= k < |r| ==> r[k].url.Some? && |r[k].url.value| > 5
  {
    if tags == [] then []
    else
      var init := SupplementaryImages(tags[..|tags| - 1]);
      var t := tags[|tags| - 1];
      if Supplementary(t) then init + [FromTag(t)] else init
  }

  /** `images` after pushing each candidate whose URL it does not hold yet, in order. */
  function AddNew(images: seq<Found>, candidates: seq<Found>): (r: seq<Found>)
    ensures |images| <= |r| && r[..|images|] == images
  {
    if candidates == [] then images
    else
      var init := AddNew(images, candidates[..|candidates| - 1]);
      var c := candidates[|candidates| - 1];
      if HasFoundUrl(init, c.url) then init else init + [c]
  }

  /** The images the three passes collect, before the URLs are rewritten. */
  function Collected(mainTags: seq<ImgTag>, plantImages: seq<RawImage>, allTags: seq<ImgTag>): seq<Found> {
    var first := Filled(mainTags, FromTag, TagHasData);
    var second := AddNew(first, Filled(plantImages, FromPlantImage, PlantImageHasData));
    AddNew(second, SupplementaryImages(allTags))
  }

  /**
   * The fourth pass's rewriting of one URL: a set URL not starting with
   * `http` is put under the PFAF site; null and `''` stay as they are.
   */
  function Rewritten(url: Option<string>): Option<string> {
    if Given(url) && !("http" <= url.value) then
      var u := url.value;
      if "../" <= u then Some(PfafBase + u[2..])
      else if "/" <= u then Some(PfafBase + u)
      else Some(PfafBase + "/" + u)
    else url
  }

  /** On every URL a record can hold, the rewriting is `normalizeImageUrl` of the other scripts. */
  lemma RewrittenIsNormalised(url: Option<string>)
    requires url != Some("")
    ensures Rewritten(url) == NormalizeImageUrl(url, PfafBase)
  {
  }

  /** Every record with its URL rewritten as the fourth pass does. */
  function Normalised(images: seq<Found>): (r: seq<Found>)
    ensures |r| == |images|
    ensures forall k :: 0 <= k < |r| ==> r[k] == images[k].(url := Rewritten(images[k].url))
  {
    seq(|images|, k requires 0 <= k < |images| => images[k].(url := Rewritten(images[k].url)))
  }

  /** The fourth pass: `images.forEach` rewriting each relative URL in place. */
  method NormalizeUrls(images: array<Found>)
    modifies images
    ensures images[..] == Normalised(old(images[..]))
  {
    for i := 0 to images.Length
      invariant forall k :: 0 <= k < i ==> images[k] == Normalised(old(images[..]))[k]
      invariant forall k :: i <= k < images.Length ==> images[k] == old(images[k])
    {
      var image := images[i];
      if Given(image.url) && !("http" <= image.url.value) {
        var u := image.url.value;
        if "../" <= u {
          images[i] := image.(url := Some(PfafBase + u[2..]));
        } else if "/" <= u {
          images[i] := image.(url := Some(PfafBase + u));
        } else {
          images[i] := image.(url := Some(PfafBase + "/" + u));
        }
      }
    }
  }

  /** Pushes each candidate whose URL `images` does not hold yet. */
  method PushNew(images: seq<Found>, candidates: seq<Found>) returns (r: seq<Found>)
    ensures r == AddNew(images, candidates)
  {
    r := images;
    for i := 0 to |candidates|
      invariant r == AddNew(images, candidates[..i])
    {
      assert candidates[..i + 1][..i] == candidates[..i];
      var isDuplicate := HasFoundUrl(r, candidates[i].url);
      if !isDuplicate {
        r := r + [candidates[i]];
      }
    }
    assert candidates[..|candidates|] == candidates;
  }

  /** `extractImages($)`: the three passes, then the rewriting of the URLs. */
  method ExtractImages(mainTags: seq<ImgTag>, plantImages: seq<RawImage>, allTags: seq<ImgTag>)
    returns (images: seq<Found>)
    ensures images == Normalised(Collected(mainTags, plantImages, allTags))
  {
    var first := KeepFilled(mainTags, FromTag, TagHasData);
    var plant := KeepFilled(plantImages, FromPlantImage, PlantImageHasData);
    var second := PushNew(first, plant);
    var supplementary: seq<Found> := [];
    for i := 0 to |allTags|
      invariant supplementary == SupplementaryImages(allTags[..i])
    {
      assert allTags[..i + 1][..i] == allTags[..i];
      if Supplementary(allTags[i]) {
        supplementary := supplementary + [FromTag(allTags[i])];
      }
    }
    assert allTags[..|allTags|] == allTags;
    var collected := PushNew(second, supplementary);
    var a := new Found[|collected|](k requires 0 <= k < |collected| => collected[k]);
    assert a[..] == collected;
    NormalizeUrls(a);
    images := a[..];
  }

  /** No record pushed by a later pass repeats a URL that an earlier record has. */
  lemma {:induction false} AddNewNoRepeat(images: seq<Found>, candidates: seq<Found>)
    ensures forall i, j :: 0 <= i < j < |AddNew(images, candidates)| && |images| <= j ==>
      AddNew(images, candidates)[i].url != AddNew(images, candidates)[j].url
  {
    if candidates != [] {
      var n := |candidates| - 1;
      var init := AddNew(images, candidates[..n]);
      var c := candidates[n];
      AddNewNoRepeat(images, candidates[..n]);
      var r := AddNew(images, candidates);
      forall i, j | 0 <= i < j < |r| && |images| <= j ensures r[i].url != r[j].url {
        assert r[i] == init[i];
        if j < |init| {
          assert r[j] == init[j];
        } else {
          assert r == init + [c] && r[j] == c;
          assert init[i].url != c.url;
        }
      }
    }
  }

  /** After a later pass, every candidate's URL is held: it was there already or was pushed. */
  lemma {:induction false} AddNewCovers(images: seq<Found>, candidates: seq<Found>)
    ensures forall c :: c in candidates ==> HasFoundUrl(AddNew(images, candidates), c.url)
  {
    if candidates != [] {
      var n := |candidates| - 1;
      var init := AddNew(images, candidates[..n]);
      AddNewCovers(images, candidates[..n]);
      var r := AddNew(images, candidates);
      assert init <= r;
      forall c | c in candidates ensures HasFoundUrl(r, c.url) {
        if c in candidates[..n] {
          var k :| 0 <= k < |init| && init[k].url == c.url;
          assert r[k] == init[k];
        } else {
          assert c == candidates[n];
          if !HasFoundUrl(init, c.url) {
            assert r[|init|] == c;
          } else {
            var k :| 0 <= k < |init| && init[k].url == c.url;
            assert r[k] == init[k];
          }
        }
      }
    }
  }

  /** Only candidates are pushed. */
  lemma {:induction false} AddNewFromCandidates(images: seq<Found>, candidates: seq<Found>)
    ensures forall j :: |images| <= j < |AddNew(images, candidates)| ==> AddNew(images, candidates)[j] in candidates
  {
    if candidates != [] {
      var n := |candidates| - 1;
      var init := AddNew(images, candidates[..n]);
      AddNewFromCandidates(images, candidates[..n]);
      var r := AddNew(images, candidates);
      forall j | |images| <= j < |r| ensures r[j] in candidates {
        if j < |init| {
          assert r[j] == init[j];
          assert init[j] in candidates[..n];
        } else {
          assert r[j] == candidates[n];
        }
      }
    }
  }

  /** The main-table images all come first, repeats kept. */
  lemma MainFirst(mainTags: seq<ImgTag>, plantImages: seq<RawImage>, allTags: seq<ImgTag>)
    ensures var first := Filled(mainTags, FromTag, TagHasData);
      Collected(mainTags, plantImages, allTags)[..|first|] == first
  {
    var first := Filled(mainTags, FromTag, TagHasData);
    var second := AddNew(first, Filled(plantImages, FromPlantImage, PlantImageHasData));
    var r := AddNew(second, SupplementaryImages(allTags));
    assert r[..|second|] == second;
    assert r[..|first|] == second[..|first|];
  }

  /**
   * URLs are compared before they are rewritten: a main image `/x` and a
   * supplementary `../x` are both kept, and end up with the same URL.
   */
  lemma RawComparisonKeepsSameFile(m: ImgTag, o: ImgTag, x: string)
    requires Attr(m.src) == Some("/" + x) && Attr(o.src) == Some("../" + x)
    requires Supplementary(o)
    ensures var images := Normalised(Collected([m], [], [o]));
      |images| == 2 && images[0].url == images[1].url
  {
    var fm, fo := FromTag(m), FromTag(o);
    CollectedPair(m, o, x);
    RewrittenIsNormalised(fm.url);
    RewrittenIsNormalised(fo.url);
    RelativeResolves(x, PfafBase);
  }

  /** The two images of `RawComparisonKeepsSameFile` are both collected. */
  lemma CollectedPair(m: ImgTag, o: ImgTag, x: string)
    requires Attr(m.src) == Some("/" + x) && Attr(o.src) == Some("../" + x)
    requires Supplementary(o)
    ensures Collected([m], [], [o]) == [FromTag(m), FromTag(o)]
  {
    var fm, fo := FromTag(m), FromTag(o);
    SingleMain(m);
    var none: seq<RawImage> := [];
    assert Filled(none, FromPlantImage, PlantImageHasData) == [];
    assert AddNew([fm], []) == [fm];
    assert [o][..0] == [];
    assert SupplementaryImages([o]) == [fo];
    assert "/" + x != "../" + x by { assert ("/" + x)[0] != ("../" + x)[0]; }
    assert !HasFoundUrl([fm], fo.url);
    assert AddNew([fm], [fo]) == AddNew([fm], [fo][..0]) + [fo];
  }

  lemma SingleMain(m: ImgTag)
    requires Attr(m.src).Some?
    ensures Filled([m], FromTag, TagHasData) == [FromTag(m)]
  {
    var fm := FromTag(m);
    assert [m][..0] == [];
    assert TagHasData(fm) by {
      assert [fm.url, fm.alt, fm.title, fm.width, fm.height][0] == fm.url;
    }
  }

  /**
   * A `.plant-images` record without a URL is dropped once any earlier record
   * has none either: `null === null` makes it a duplicate.
   */
  lemma NullUrlsCollide(images: seq<Found>, c: Found)
    requires c.url.None? && HasFoundUrl(images, None)
    ensures AddNew(images, [c]) == images
  {
    assert [c][..0] == [];
  }

  /** After the rewriting every URL a record can hold is null or absolute. */
  lemma AllAbsoluteOrNull(images: seq<Found>)
    requires forall k :: 0 <= k < |images| ==> images[k].url != Some("")
    ensures forall k :: 0 <= k < |Normalised(images)| ==>
      Normalised(images)[k].url.None? || "http" <= Normalised(images)[k].url.value
  {
    assert "http" <= PfafBase;
    forall k | 0 <= k < |images| ensures Normalised(images)[k].url.None? || "http" <= Normalised(images)[k].url.value {
      RewrittenIsNormalised(images[k].url);
      NormalizedAbsolute(images[k].url, PfafBase);
    }
  }

  /** Every record the passes collect has a URL that is null or non-empty. */
  lemma {:induction false} CollectedUrlsSet(mainTags: seq<ImgTag>, plantImages: seq<RawImage>, allTags: seq<ImgTag>)
    ensures var c := Collected(mainTags, plantImages, allTags);
      forall k :: 0 <= k < |c| ==> c[k].url != Some("")
  {
    var first := Filled(mainTags, FromTag, TagHasData);
    var plant := Filled(plantImages, FromPlantImage, PlantImageHasData);
    var sup := SupplementaryImages(allTags);
    var second := AddNew(first, plant);
    var c := AddNew(second, sup);
    forall x | x in first ensures x.url != Some("") {
      FilledMembers(mainTags, FromTag, TagHasData, x);
    }
    forall x | x in plant ensures x.url != Some("") {
      FilledMembers(plantImages, FromPlantImage, PlantImageHasData, x);
    }
    AddNewFromCandidates(first, plant);
    AddNewFromCandidates(second, sup);
    forall k | 0 <= k < |c| ensures c[k].url != Some("") {
      if k < |second| {
        assert c[k] == second[k];
        if k < |first| {
          assert second[k] == first[k];
        }
      }
    }
  }
}
