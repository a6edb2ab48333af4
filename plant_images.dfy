/**
 * `extractImages($)` of `analyze_plant_details.js`, which
 * `config/test_image_extraction_v2.js` repeats line for line: plant images
 * from the main image table first, then those of the other centred table
 * cells whose source is not already a main image's, every URL normalised
 * against the PFAF site. Each table is given as the `<img>` attributes its
 * selector finds, in document order.
 */
module PlantImages {
  import opened Text
  import opened PlantPage

  datatype Source = MainTable | OtherTable

  /** The attributes of one `<img>`, `None` where absent. */
  datatype ImgTag = ImgTag(src: Option<string>, alt: Option<string>, title: Option<string>,
                           width: Option<string>, height: Option<string>)

  datatype PlantImage = PlantImage(url: Option<string>, alt: Option<string>, title: Option<string>,
                                   width: Option<string>, height: Option<string>, source: Source)

  /** The image an `<img>` gives when its trimmed source is set and is not a non-plant image. */
  function Candidate(tag: ImgTag, source: Source): (r: Option<PlantImage>)
    ensures r.Some? <==> Attr(tag.src).Some? && !IsNonPlantImage(Attr(tag.src))
    ensures r.Some? ==> r.value.url == Attr(tag.src) && Given(r.value.url) && r.value.source == source
  {
    var src := Attr(tag.src);
    if src.Some? && !IsNonPlantImage(src) then
      Some(PlantImage(src, Attr(tag.alt), Attr(tag.title), Attr(tag.width), Attr(tag.height), source))
    else None
  }

  /** `images.some(existing => existing.url === url)`. */
  predicate HasUrl(images: seq<PlantImage>, url: Option<string>) {
    exists k :: 0 <= k < |images| && images[k].url == url
  }

  /** The main-table images, in order, repeats included. */
  function MainImages(tags: seq<ImgTag>): (r: seq<PlantImage>)
    ensures forall k :: 0 <= k < |r| ==> Given(r[k].url)
  {
    if tags == [] then []
    else
      var init := MainImages(tags[..|tags| - 1]);
      match Candidate(tags[|tags| - 1], MainTable)
      case Some(img) => init + [img]
      case None => init
  }

  /** The other-table images whose raw source no main image has, in order, repeats included. */
  function Additional(tags: seq<ImgTag>, main: seq<PlantImage>): (r: seq<PlantImage>)
    ensures forall k :: 0 <= k < |r| ==> Given(r[k].url) && !HasUrl(main, r[k].url)
  {
    if tags == [] then []
    else
      var init := Additional(tags[..|tags| - 1], main);
      match Candidate(tags[|tags| - 1], OtherTable)
      case Some(img) => if HasUrl(main, img.url) then init else init + [img]
      case None => init
  }

  /** The `.map` that replaces each URL by its normalised form, everything else kept. */
  function Normalised(images: seq<PlantImage>): (r: seq<PlantImage>)
    ensures |r| == |images|
    ensures forall k :: 0 <= k < |r| ==> r[k] == images[k].(url := NormalizeImageUrl(images[k].url, PfafBase))
  {
    seq(|images|, k requires 0 <= k < |images| => images[k].(url := NormalizeImageUrl(images[k].url, PfafBase)))
  }

  /** The images returned: the main ones, then the additional ones, all normalised. */
  function AllImages(mainTags: seq<ImgTag>, otherTags: seq<ImgTag>): seq<PlantImage> {
    var main := MainImages(mainTags);
    Normalised(main) + Normalised(Additional(otherTags, main))
  }

  /** `extractImages($)`: the two `.each` loops, then the two `.map`s and the concatenation. */
  method ExtractImages(mainTags: seq<ImgTag>, otherTags: seq<ImgTag>) returns (all: seq<PlantImage>)
    ensures all == AllImages(mainTags, otherTags)
  {
    var main: seq<PlantImage> := [];
    for i := 0 to |mainTags|
      invariant main == MainImages(mainTags[..i])
    {
      assert mainTags[..i + 1][..i] == mainTags[..i];
      var c := Candidate(mainTags[i], MainTable);
      if c.Some? {
        main := main + [c.value];
      }
    }
    assert mainTags[..|mainTags|] == mainTags;
    var additional: seq<PlantImage> := [];
    for i := 0 to |otherTags|
      invariant additional == Additional(otherTags[..i], main)
    {
      assert otherTags[..i + 1][..i] == otherTags[..i];
      var c := Candidate(otherTags[i], OtherTable);
      if c.Some? {
        var isDuplicate := HasUrl(main, c.value.url);
        if !isDuplicate {
          additional := additional + [c.value];
        }
      }
    }
    assert otherTags[..|otherTags|] == otherTags;
    all := Normalised(main) + Normalised(additional);
  }

  /** The main images are exactly the plant images of the main table. */
  lemma {:induction false} MainMembers(tags: seq<ImgTag>, img: PlantImage)
    ensures img in MainImages(tags) <==> exists i :: 0 <= i < |tags| && Candidate(tags[i], MainTable) == Some(img)
  {
    if tags != [] {
      var n := |tags| - 1;
      MainMembers(tags[..n], img);
      SomeIndex(tags, n, MainTable, img);
    }
  }

  /**
   * An other-table image is added exactly when it is a plant image and no
   * main image has the same raw source.
   */
  lemma {:induction false} AdditionalMembers(tags: seq<ImgTag>, main: seq<PlantImage>, img: PlantImage)
    ensures img in Additional(tags, main) <==>
      !HasUrl(main, img.url) && exists i :: 0 <= i < |tags| && Candidate(tags[i], OtherTable) == Some(img)
  {
    if tags != [] {
      var n := |tags| - 1;
      AdditionalMembers(tags[..n], main, img);
      SomeIndex(tags, n, OtherTable, img);
    }
  }

  /** Some tag among the first `n + 1` gives `img` iff one among the first `n` does or tag `n` does. */
  lemma SomeIndex(tags: seq<ImgTag>, n: nat, source: Source, img: PlantImage)
    requires n < |tags|
    ensures (exists i :: 0 <= i <= n && Candidate(tags[i], source) == Some(img)) <==>
      (exists i :: 0 <= i < n && Candidate(tags[..n][i], source) == Some(img)) || Candidate(tags[n], source) == Some(img)
  {
    if exists i :: 0 <= i < n && Candidate(tags[..n][i], source) == Some(img) {
      var i :| 0 <= i < n && Candidate(tags[..n][i], source) == Some(img);
      assert tags[..n][i] == tags[i];
    }
    if exists i :: 0 <= i <= n && Candidate(tags[i], source) == Some(img) {
      var i :| 0 <= i <= n && Candidate(tags[i], source) == Some(img);
      if i < n {
        assert tags[..n][i] == tags[i];
      }
    }
  }

  /** Repeats among the other-table images are not removed: the same tag twice gives the image twice. */
  lemma AdditionalKeepsRepeats(tag: ImgTag, main: seq<PlantImage>)
    requires Candidate(tag, OtherTable).Some?
    requires !HasUrl(main, Attr(tag.src))
    ensures var img := Candidate(tag, OtherTable).value; Additional([tag, tag], main) == [img, img]
  {
    var img := Candidate(tag, OtherTable).value;
    assert [tag, tag][..1] == [tag];
    assert [tag][..0] == [];
    assert Additional([tag], main) == [img];
  }

  /** Every returned image has an absolute URL. */
  lemma AllAbsolute(mainTags: seq<ImgTag>, otherTags: seq<ImgTag>)
    ensures forall k :: 0 <= k < |AllImages(mainTags, otherTags)| ==>
      AllImages(mainTags, otherTags)[k].url.Some? && "http" <= AllImages(mainTags, otherTags)[k].url.value
  {
    var main := MainImages(mainTags);
    var add := Additional(otherTags, main);
    var all := AllImages(mainTags, otherTags);
    assert "http" <= PfafBase;
    forall k | 0 <= k < |all| ensures all[k].url.Some? && "http" <= all[k].url.value {
      var raw := if k < |main| then main[k] else add[k - |main|];
      NormalizedAbsolute(raw.url, PfafBase);
    }
  }

  /**
   * The comparison is on raw sources, before normalisation: a main image
   * `/x` and an other-table image `../x` are both returned, with the same URL.
   */
  lemma RawComparisonKeepsSameFile(m: ImgTag, o: ImgTag, x: string)
    requires Attr(m.src) == Some("/" + x) && Attr(o.src) == Some("../" + x)
    requires !IsNonPlantImage(Some("/" + x)) && !IsNonPlantImage(Some("../" + x))
    ensures var all := AllImages([m], [o]);
      |all| == 2 && all[0].source == MainTable && all[1].source == OtherTable && all[0].url == all[1].url
  {
    var main := MainImages([m]);
    assert [m][..0] == [] && [o][..0] == [];
    assert Candidate(m, MainTable).Some? && Candidate(o, OtherTable).Some?;
    assert main == MainImages([m][..0]) + [Candidate(m, MainTable).value];
    assert "/" + x != "../" + x by { assert ("/" + x)[0] != ("../" + x)[0]; }
    assert !HasUrl(main, Some("../" + x));
    var add := Additional([o], main);
    assert add == Additional([o][..0], main) + [Candidate(o, OtherTable).value];
    RelativeResolves(x, PfafBase);
    var all := Normalised(main) + Normalised(add);
    assert all[0].url == NormalizeImageUrl(Some("/" + x), PfafBase);
    assert all[1].url == NormalizeImageUrl(Some("../" + x), PfafBase);
  }
}
