/**
 * `config/extract_plant_links.js`: the PFAF plant pages listed in the
 * sitemap, as bare URLs, each once, one per line. Reading the XML file and
 * writing `plant_links.txt` are left out: the input is the file's text and
 * the output the text written, or nothing when no entry matches.
 */
module ExtractPlantLinks {
  import opened Text

  const LocOpen := "<loc>"
  const LocClose := "</loc>"
  const PlantUrl := "https://pfaf.org/User/Plant.aspx?LatinName="

  /** What the pattern requires before the name. */
  const Head := LocOpen + PlantUrl

  /** The text one match covers. */
  function Entry(name: string): string {
    Head + name + LocClose
  }

  /** A name the pattern accepts: `[^<]+`. */
  predicate GoodName(name: string) {
    name != [] && '<' !in name
  }

  /** The greedy `[^<]+` from `j`: the characters up to the next '<' or the end. */
  function NameLength(s: string, j: nat): (n: nat)
    requires j <= |s|
    ensures j + n <= |s|
    ensures '<' !in s[j..j + n]
    ensures j + n < |s| ==> s[j + n] == '<'
    decreases |s| - j
  {
    if j == |s| || s[j] == '<' then 0
    else
      var n := NameLength(s, j + 1);
      assert s[j..j + 1 + n] == [s[j]] + s[j + 1..j + 1 + n];
      1 + n
  }

  /** The name of the match starting at `pos`, if one does: `Head`, the name, then `</loc>`. */
  function MatchAt(s: string, pos: nat): (r: Option<string>)
    ensures r.Some? ==> GoodName(r.value)
    ensures r.Some? ==> pos + |Head| + |r.value| + |LocClose| <= |s|
    ensures r.Some? ==> s[pos..pos + |Head|] == Head && LocClose <= s[pos + |Head| + |r.value|..]
    ensures r.Some? ==> s[pos + |Head|..pos + |Head| + |r.value|] == r.value
  {
    var h := |Head|;
    if pos + h <= |s| && s[pos..pos + h] == Head then
      var n := NameLength(s, pos + h);
      if n >= 1 && LocClose <= s[pos + h + n..] then Some(s[pos + h..pos + h + n])
      else None
    else None
  }

  /** `content.match(targetPattern)` from `pos`: the names of the matches, left to right, without overlap. */
  function Matches(s: string, pos: nat): (names: seq<string>)
    ensures forall k :: 0 <= k < |names| ==> GoodName(names[k])
    decreases |s| - pos
  {
    if pos >= |s| then []
    else
      match MatchAt(s, pos)
      case Some(name) => [name] + Matches(s, pos + |Head| + |name| + |LocClose|)
      case None => Matches(s, pos + 1)
  }

  /** Without a `<loc>` opening there is no match. */
  lemma {:induction false} NoLocNoMatch(s: string, pos: nat)
    requires forall i :: pos <= i < |s| ==> !(LocOpen <= s[i..])
    ensures Matches(s, pos) == []
    decreases |s| - pos
  {
    if pos < |s| {
      if pos + |Head| <= |s| {
        assert s[pos..][..|LocOpen|] == s[pos..pos + |Head|][..|LocOpen|];
        assert s[pos..pos + |Head|] != Head;
      }
      NoLocNoMatch(s, pos + 1);
    }
  }

  /** The first occurrence of `p` in `s` is at `i` when it occurs there and nowhere before. */
  lemma IndexOfIs(s: string, p: string, i: nat)
    requires i <= |s| && p <= s[i..]
    requires forall j :: 0 <= j < i ==> !(p <= s[j..])
    ensures IndexOf(s, p) == i
  {
    ContainsAt(s, p, i);
  }

  /** `.replace('<loc>', '').replace('</loc>', '')` on a match. */
  function Strip(m: string): string {
    ReplaceFirst(ReplaceFirst(m, LocOpen, ""), LocClose, "")
  }

  /** Removing the first `<loc>` from a match removes its opening tag. */
  lemma StripOpen(name: string)
    ensures ReplaceFirst(Entry(name), LocOpen, "") == PlantUrl + name + LocClose
  {
    var m := Entry(name);
    assert LocOpen <= m[0..];
    IndexOfIs(m, LocOpen, 0);
  }

  /** Removing the first `</loc>` from a '<'-free text followed by `</loc>` leaves the text. */
  lemma StripClose(u: string)
    requires '<' !in u
    ensures ReplaceFirst(u + LocClose, LocClose, "") == u
  {
    var m := u + LocClose;
    assert m[|u|..] == LocClose;
    forall j | 0 <= j < |u| ensures !(LocClose <= m[j..]) {
      assert m[j..][0] == u[j];
    }
    IndexOfIs(m, LocClose, |u|);
    assert m[..|u|] == u;
  }

  lemma PlantUrlChars()
    ensures '<' !in PlantUrl && '\n' !in PlantUrl
  {
    forall k | 0 <= k < |PlantUrl| ensures PlantUrl[k] != '<' && PlantUrl[k] != '\n' {
    }
  }

  /** Stripping the tags from a match leaves the page URL. */
  lemma StripEntry(name: string)
    requires GoodName(name)
    ensures Strip(Entry(name)) == PlantUrl + name
  {
    StripOpen(name);
    var u := PlantUrl + name;
    PlantUrlChars();
    assert '<' !in u;
    StripClose(u);
    assert PlantUrl + name + LocClose == u + LocClose;
  }

  /** The bare URLs of the matches, in order. */
  function Links(names: seq<string>): (links: seq<string>)
    requires forall k :: 0 <= k < |names| ==> GoodName(names[k])
    ensures |links| == |names|
    ensures forall k :: 0 <= k < |names| ==> links[k] == PlantUrl + names[k]
  {
    if names == [] then []
    else
      var last := names[|names| - 1];
      StripEntry(last);
      Links(names[..|names| - 1]) + [Strip(Entry(last))]
  }

  /** The script: the text written to `plant_links.txt`, or `None` when it exits early. */
  function Extract(content: string): (out: Option<string>)
    ensures out.None? <==> Matches(content, 0) == []
  {
    var names := Matches(content, 0);
    if names == [] then None else Some(Join(Dedup(Links(names)), "\n"))
  }

  /**
   * When the sitemap has no line break inside a name, the lines written are
   * the page URLs each once, in first-occurrence order: reading the file
   * back gives them.
   */
  lemma ExtractLines(content: string)
    requires '\n' !in content
    requires Matches(content, 0) != []
    ensures Split(Extract(content).value, '\n') == Dedup(Links(Matches(content, 0)))
  {
    var links := Links(Matches(content, 0));
    LinksOneLine(content);
    var d := Dedup(links);
    forall k | 0 <= k < |d| ensures '\n' !in d[k] {
      assert d[k] in links;
    }
    assert links[0] in d;
    SplitJoin(d, '\n');
  }

  lemma LinksOneLine(content: string)
    requires '\n' !in content
    ensures forall u :: u in Links(Matches(content, 0)) ==> '\n' !in u
  {
    var names := Matches(content, 0);
    var links := Links(names);
    MatchesAvoid(content, 0, '\n');
    PlantUrlChars();
    forall u | u in links ensures '\n' !in u {
      var j :| 0 <= j < |links| && links[j] == u;
      assert u == PlantUrl + names[j];
    }
  }

  /** A character absent from the text is absent from every name matched in it. */
  lemma {:induction false} MatchesAvoid(s: string, pos: nat, c: char)
    requires c !in s
    ensures forall k :: 0 <= k < |Matches(s, pos)| ==> c !in Matches(s, pos)[k]
    decreases |s| - pos
  {
    if pos < |s| {
      match MatchAt(s, pos)
      case Some(name) =>
        MatchesAvoid(s, pos + |Head| + |name| + |LocClose|, c);
        var a := pos + |Head|;
        assert name == s[a..a + |name|];
        assert forall i :: 0 <= i < |name| ==> name[i] == s[a + i];
      case None =>
        MatchesAvoid(s, pos + 1, c);
    }
  }

  /** One sitemap entry gives its page URL. */
  lemma SingleEntry(name: string)
    requires GoodName(name)
    ensures Extract(Entry(name)) == Some(PlantUrl + name)
  {
    var s := Entry(name);
    var h := |Head|;
    assert s[0..h] == Head;
    NameLengthIs(s, h, |name|);
    assert s[h + |name|..] == LocClose;
    assert s[h..h + |name|] == name;
    assert MatchAt(s, 0) == Some(name);
    assert Matches(s, |s|) == [];
    assert Matches(s, 0) == [name];
    assert Links([name]) == [PlantUrl + name];
  }

  lemma {:induction false} NameLengthIs(s: string, j: nat, n: nat)
    requires j + n < |s| && s[j + n] == '<'
    requires forall k :: j <= k < j + n ==> s[k] != '<'
    ensures NameLength(s, j) == n
    decreases n
  {
    if n > 0 {
      NameLengthIs(s, j + 1, n - 1);
    }
  }
}
