/**
 * `app/templates/case_detail_template.ts`: the static page of one case. The
 * fixed markup is not modelled; a page is the value of its variable parts
 * (the navigation links, the gallery, the tags, the neighbour links), and
 * the highlighting of the basic-information labels is modelled on text.
 */
module CaseDetailTemplate {
  import opened Text

  datatype Image = Image(storagePath: string)
  datatype Tag = Tag(nameEn: Option<string>, name: string)
  datatype Neighbour = Neighbour(id: string, fullName: string, path: string)

  datatype TemplateData = TemplateData(
    fullName: string,
    breadcrumbs: string,
    images: seq<Image>,
    tags: seq<Tag>,
    urlPathSegments: seq<string>,
    imgBaseUrl: string,
    prevCase: Option<Neighbour>,
    nextCase: Option<Neighbour>)

  // ---------------------------------------------------------------- navigation

  const Up := "../"

  /** The prefix of the Home and Search links: one `../` per path segment. */
  function NavPrefix(segments: seq<string>): (p: string)
    ensures |p| == |Up| * |segments|
  {
    if |segments| > 0 then Repeat(Up, |segments|) else ""
  }

  /**
   * How a browser follows a relative link from directory `dir`: each leading
   * `../` leaves one directory (none above the root); the rest is the file.
   */
  function Resolve(dir: seq<string>, href: string): (seq<string>, string)
    decreases |href|
  {
    if Up <= href then Resolve(if dir == [] then [] else dir[..|dir| - 1], href[|Up|..])
    else (dir, href)
  }

  /** From a page `|segments|` directories deep, the prefixed link names the file at the site root. */
  lemma {:induction false} NavPrefixReachesRoot(segments: seq<string>, file: string)
    requires !(Up <= file)
    ensures Resolve(segments, NavPrefix(segments) + file) == ([], file)
    decreases |segments|
  {
    var n := |segments|;
    if n > 0 {
      var rest := segments[..n - 1];
      var tail := NavPrefix(rest) + file;
      assert NavPrefix(rest) == Repeat(Up, n - 1);
      assert NavPrefix(segments) + file == Up + tail;
      assert Up <= Up + tail;
      assert (Up + tail)[|Up|..] == tail;
      assert Resolve(segments, Up + tail) == Resolve(rest, tail);
      NavPrefixReachesRoot(rest, file);
    } else {
      assert NavPrefix(segments) + file == file;
      assert Resolve(segments, file) == (segments, file);
    }
  }

  function HomeHref(segments: seq<string>): string { NavPrefix(segments) + "index.html" }
  function SearchHref(segments: seq<string>): string { NavPrefix(segments) + "search.html" }

  /** Both header links lead to the root pages whatever the depth. */
  lemma HeaderLinksReachRoot(segments: seq<string>)
    ensures Resolve(segments, HomeHref(segments)) == ([], "index.html")
    ensures Resolve(segments, SearchHref(segments)) == ([], "search.html")
  {
    assert "index.html"[0] != Up[0];
    assert "search.html"[0] != Up[0];
    NavPrefixReachesRoot(segments, "index.html");
    NavPrefixReachesRoot(segments, "search.html");
  }

  // ---------------------------------------------------------------- photos

  function ImageSrc(base: string, img: Image): string { base + "/" + img.storagePath }

  function Srcs(base: string, images: seq<Image>): (srcs: seq<string>)
    ensures |srcs| == |images|
  {
    seq(|images|, i requires 0 <= i < |images| => ImageSrc(base, images[i]))
  }

  /** The photos block: a hero image and a grid of thumbnails, every image shown with the case's name. */
  datatype Gallery = Gallery(hero: string, thumbnails: seq<string>, alt: string)

  /** The block appears only for a case with images; the hero then the thumbnails are all images in order. */
  function PhotosOf(base: string, name: string, images: seq<Image>): (g: Option<Gallery>)
    ensures g.Some? <==> images != []
    ensures g.Some? ==> [g.value.hero] + g.value.thumbnails == Srcs(base, images)
    ensures g.Some? ==> g.value.alt == name
  {
    if |images| > 0 then
      var thumbs := if |images| > 1 then Srcs(base, images[1..]) else [];
      assert [ImageSrc(base, images[0])] + thumbs == Srcs(base, images);
      Some(Gallery(ImageSrc(base, images[0]), thumbs, name))
    else None
  }

  // ---------------------------------------------------------------- tags

  /** `tag.name_en || tag.name`: an empty English name falls back too. */
  function Shown(t: Tag): string {
    if Given(t.nameEn) then t.nameEn.value else t.name
  }

  /** A tag shows its own name exactly when it has no English name or the same one. */
  lemma ShownFallsBack(t: Tag)
    ensures Shown(t) == t.name <==> !Given(t.nameEn) || t.nameEn.value == t.name
    ensures Shown(t) == [] <==> !Given(t.nameEn) && t.name == []
  {
  }

  /** The tags block appears only for a tagged case, one label per tag in order. */
  function TagsOf(tags: seq<Tag>): (labels: Option<seq<string>>)
    ensures labels.Some? <==> tags != []
    ensures labels.Some? ==> |labels.value| == |tags|
    ensures labels.Some? ==> forall i :: 0 <= i < |tags| ==> labels.value[i] == Shown(tags[i])
  {
    if |tags| > 0 then Some(seq(|tags|, i requires 0 <= i < |tags| => Shown(tags[i]))) else None
  }

  // ---------------------------------------------------------------- neighbours

  datatype Link = Link(href: string, text: string)

  /** The previous or next case link; `None` is the empty placeholder column. */
  function NeighbourLink(n: Option<Neighbour>): (l: Option<Link>)
    ensures l.Some? <==> n.Some?
    ensures l.Some? ==> l.value.text == n.value.fullName
    ensures l.Some? ==> var p := Split(l.value.href, '/');
      '/' !in n.value.id ==> p[|p| - 1] == n.value.id + ".html"
  {
    match n
    case None => None
    case Some(c) =>
      var file := c.id + ".html";
      HtmlFile(c.id);
      SplitLast(c.path, file);
      Some(Link(c.path + "/" + file, c.fullName))
  }

  lemma HtmlFile(id: string)
    ensures '/' !in id ==> '/' !in id + ".html"
  {
    var file := id + ".html";
    forall k | 0 <= k < |file| && '/' !in id ensures file[k] != '/' {
      if k >= |id| { assert file[k] == ".html"[k - |id|]; }
    }
  }

  /** Splitting on '/' a text that ends in `/` and a '/'-free file gives that file last. */
  lemma {:induction false} SplitLast(dir: string, file: string)
    ensures '/' !in file ==> var p := Split(dir + "/" + file, '/'); p[|p| - 1] == file
    decreases |dir|
  {
    if '/' !in file {
      var s := dir + "/" + file;
      var i := FirstIndex(s, '/');
      if i < |dir| {
        assert s[i + 1..] == dir[i + 1..] + "/" + file;
        assert dir[i] == '/';
        SplitLast(dir[i + 1..], file);
      } else {
        assert i == |dir|;
        assert s[i + 1..] == file;
      }
    }
  }

  // ---------------------------------------------------------------- page

  datatype Page = Page(
    title: string,
    homeHref: string,
    searchHref: string,
    breadcrumbs: string,
    heading: string,
    photos: Option<Gallery>,
    tags: Option<seq<string>>,
    previous: Option<Link>,
    next: Option<Link>)

  /** `generateCaseDetailHtml` without its fixed markup. */
  function Render(d: TemplateData): (p: Page)
    ensures p.title == d.fullName + " - Missing Person Case" && p.heading == d.fullName
    ensures p.photos.Some? <==> d.images != []
    ensures p.tags.Some? <==> d.tags != []
    ensures p.previous.Some? <==> d.prevCase.Some?
    ensures p.next.Some? <==> d.nextCase.Some?
    ensures p.photos == PhotosOf(d.imgBaseUrl, d.fullName, d.images) && p.tags == TagsOf(d.tags)
    ensures p.previous == NeighbourLink(d.prevCase) && p.next == NeighbourLink(d.nextCase)
    ensures p.breadcrumbs == d.breadcrumbs
    ensures Resolve(d.urlPathSegments, p.homeHref) == ([], "index.html")
    ensures Resolve(d.urlPathSegments, p.searchHref) == ([], "search.html")
  {
    HeaderLinksReachRoot(d.urlPathSegments);
    Page(
      d.fullName + " - Missing Person Case",
      HomeHref(d.urlPathSegments),
      SearchHref(d.urlPathSegments),
      d.breadcrumbs,
      d.fullName,
      PhotosOf(d.imgBaseUrl, d.fullName, d.images),
      TagsOf(d.tags),
      NeighbourLink(d.prevCase),
      NeighbourLink(d.nextCase))
  }

  // ---------------------------------------------------------------- labels

  const Keywords: seq<string> :=
    ["Sex", "Race", "Age", "Missing Since", "Missing From", "Date of Birth", "Height", "Weight"]

  /** `keywords.some(keyword => s.includes(keyword))`: a substring test, not a word test. */
  predicate HasKeyword(s: string) {
    exists k :: 0 <= k < |Keywords| && Contains(s, Keywords[k])
  }

  const WrapOpen := "<span class=\"font-bold text-red-600\">"
  const WrapClose := "</span>"
  const StatLabelOpen := "<span class=\"stat-label\">"

  function Wrap(s: string): string { WrapOpen + s + WrapClose }

  /** One part of a combined label: trimmed, and wrapped when it holds a keyword. */
  function PartOf(part: string): string {
    var t := Trim(Js, part);
    if HasKeyword(t) then Wrap(t) else t
  }

  /** A part is wrapped once exactly when its trimmed text holds a keyword; otherwise it is that text. */
  lemma PartWrapped(part: string)
    ensures PartOf(part) == Wrap(Trim(Js, part)) <==> HasKeyword(Trim(Js, part))
    ensures !HasKeyword(Trim(Js, part)) ==> PartOf(part) == Trim(Js, part)
  {
    var t := Trim(Js, part);
    assert |Wrap(t)| > |t|;
  }

  /** The parts of a combined label, each highlighted on its own: as many as before. */
  function Highlighted(parts: seq<string>): (r: seq<string>)
    ensures |r| == |parts|
    ensures forall i :: 0 <= i < |parts| ==> r[i] == PartOf(parts[i])
  {
    seq(|parts|, i requires 0 <= i < |parts| => PartOf(parts[i]))
  }

  /**
   * The label inside `<span class="stat-label">`: a combined label is
   * rebuilt part by part around '/', a single one is wrapped whole (untrimmed)
   * exactly when it holds a keyword.
   */
  function Highlight(caption: string): (r: string)
    ensures '/' !in caption ==> (r == Wrap(caption) <==> HasKeyword(caption))
    ensures '/' !in caption && !HasKeyword(caption) ==> r == caption
  {
    if '/' in caption then Join(Highlighted(Split(caption, '/')), "/")
    else if HasKeyword(caption) then Wrap(caption)
    else caption
  }

  /** The replacement for one `<span class="stat-label">…</span>` match. */
  function LabelSpan(caption: string): (r: string)
    ensures StatLabelOpen <= r
    ensures r[|StatLabelOpen|..] == Highlight(caption) + WrapClose
  {
    StatLabelOpen + Highlight(caption) + WrapClose
  }

  /** 'Age' is found inside 'Agency', so such a label is highlighted too. */
  lemma AgencyHighlighted()
    ensures Highlight("Investigating Agency") == Wrap("Investigating Agency")
  {
    var s := "Investigating Agency";
    forall k | 0 <= k < |s| ensures s[k] != '/' {
    }
    assert Keywords[2] == "Age";
    assert "Age" <= s[14..];
    ContainsAt(s, "Age", 14);
  }

  /** A combined label gets each of its keyword parts wrapped, without the spaces around them. */
  lemma CombinedLabel()
    ensures Highlight("Sex / Race") == Wrap("Sex") + "/" + Wrap("Race")
  {
    var a, b := "Sex ", " Race";
    assert "Sex / Race" == a + "/" + b;
    SexPart();
    RacePart();
    TwoParts(a, b);
  }

  lemma SexPart()
    ensures '/' !in "Sex " && PartOf("Sex ") == Wrap("Sex")
  {
    var a := "Sex ";
    forall k | 0 <= k < |a| ensures a[k] != '/' {}
    assert Keywords[0] == "Sex";
    assert a == "Sex" + " ";
    KeywordPart(a, "", "Sex", " ", 0);
  }

  lemma RacePart()
    ensures '/' !in " Race" && PartOf(" Race") == Wrap("Race")
  {
    var b := " Race";
    forall k | 0 <= k < |b| ensures b[k] != '/' {}
    assert Keywords[1] == "Race";
    assert b == " " + "Race";
    KeywordPart(b, " ", "Race", "", 1);
  }

  /** A label of two '/'-free parts is the two parts highlighted, around one '/'. */
  lemma TwoParts(a: string, b: string)
    requires '/' !in a && '/' !in b
    ensures Highlight(a + "/" + b) == PartOf(a) + "/" + PartOf(b)
  {
    var s := a + "/" + b;
    assert s[|a|] == '/';
    HighlightedTwo(a, b);
    JoinTwo(PartOf(a), PartOf(b), "/");
  }

  lemma HighlightedTwo(a: string, b: string)
    requires '/' !in a && '/' !in b
    ensures Highlighted(Split(a + "/" + b, '/')) == [PartOf(a), PartOf(b)]
  {
    SplitTwo(a, b);
    var h := Highlighted([a, b]);
    assert h[0] == PartOf(a) && h[1] == PartOf(b);
    SeqTwo(h, PartOf(a), PartOf(b));
  }

  lemma SeqTwo(h: seq<string>, x: string, y: string)
    requires |h| == 2 && h[0] == x && h[1] == y
    ensures h == [x, y]
  {
  }

  lemma JoinTwo(x: string, y: string, sep: string)
    ensures Join([x, y], sep) == x + sep + y
  {
    assert [x, y][1..] == [y];
  }

  lemma SplitTwo(a: string, b: string)
    requires '/' !in a && '/' !in b
    ensures Split(a + "/" + b, '/') == [a, b]
  {
    var s := a + "/" + b;
    assert s[|a|] == '/' && s[..|a|] == a;
    FirstIndexAt(s, '/', |a|);
    assert s[|a| + 1..] == b;
  }

  /** A part that trims to keyword `k` is wrapped. */
  lemma KeywordPart(part: string, pre: string, t: string, post: string, k: nat)
    requires k < |Keywords| && t == Keywords[k] && part == pre + t + post
    requires Blank(Js, pre) && Blank(Js, post)
    requires t != [] && !IsJsSpace(t[0]) && !IsJsSpace(t[|t| - 1])
    ensures PartOf(part) == Wrap(t)
  {
    assert part[..|pre|] == pre && part[|pre|..|pre| + |t|] == t && part[|pre| + |t|..] == post;
    TrimOf(Js, part, |pre|, t);
    ContainsAt(t, t, 0);
  }
}
