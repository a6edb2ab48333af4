/**
 * `extractSectionContent($, sectionTitle)` of `analyze_plant_details.js`:
 * the texts of the elements that follow a section's `<h2>`, up to the next
 * `<h2>`, trimmed, the blank ones skipped, joined with single spaces.
 */
module PlantSections {
  import opened Text
  import opened PlantPage

  /** An element after the heading: its tag name and its text. */
  datatype Sibling = Sibling(tagName: string, text: string)

  /** `tagName.toLowerCase() === 'h2'`, compared character by character. */
  predicate IsHeading(e: Sibling) {
    |e.tagName| == 2 && LowerChar(e.tagName[0]) == 'h' && LowerChar(e.tagName[1]) == '2'
  }

  lemma HeadingIsLowerH2(e: Sibling)
    ensures IsHeading(e) <==> Lower(e.tagName) == "h2"
  {
    if |e.tagName| == 2 {
      var l := Lower(e.tagName);
      assert l == [l[0], l[1]];
    }
  }

  /** How many siblings the loop visits: those before the first `<h2>`. */
  function SectionLength(siblings: seq<Sibling>, k: nat): (n: nat)
    requires k <= |siblings|
    ensures k <= n <= |siblings|
    ensures n < |siblings| ==> IsHeading(siblings[n])
    ensures forall j :: k <= j < n ==> !IsHeading(siblings[j])
    decreases |siblings| - k
  {
    if k == |siblings| || IsHeading(siblings[k]) then k else SectionLength(siblings, k + 1)
  }

  /** The non-blank texts of `elements`, trimmed, in order. */
  function Texts(elements: seq<Sibling>): (ts: seq<string>)
    ensures forall k :: 0 <= k < |ts| ==> ts[k] != [] && !IsJsSpace(ts[k][0]) && !IsJsSpace(ts[k][|ts[k]| - 1])
  {
    if elements == [] then []
    else
      var t := Trim(Js, elements[|elements| - 1].text);
      Texts(elements[..|elements| - 1]) + (if t != [] then [t] else [])
  }

  /**
   * The section's content, given the siblings that follow its heading
   * (`None` when the page has no such heading): the texts joined by single
   * spaces, or `None` when there are none.
   */
  function SectionContent(following: Option<seq<Sibling>>): Option<string> {
    if following.None? then None
    else
      var siblings := following.value;
      var ts := Texts(siblings[..SectionLength(siblings, 0)]);
      if ts == [] then None else Some(Join(ts, " "))
  }

  /** What `content` holds after the texts `ts`: each followed by a space. */
  function Spaced(ts: seq<string>): string {
    if ts == [] then [] else Spaced(ts[..|ts| - 1]) + ts[|ts| - 1] + " "
  }

  /** `extractSectionContent`: the `while` loop over the siblings, then `content.trim() || null`. */
  method ExtractSectionContent(following: Option<seq<Sibling>>) returns (r: Option<string>)
    ensures r == SectionContent(following)
  {
    if following.None? {
      return None;
    }
    var siblings := following.value;
    var content := "";
    var i := 0;
    ghost var texts: seq<string> := [];
    while i < |siblings| && !IsHeading(siblings[i])
      invariant i <= SectionLength(siblings, 0)
      invariant texts == Texts(siblings[..i])
      invariant content == Spaced(texts)
    {
      SectionStep(siblings, i);
      var text := Trim(Js, siblings[i].text);
      LoopStep(siblings, i, texts);
      if |text| > 0 {
        content := content + text + " ";
        texts := texts + [text];
      }
      i := i + 1;
    }
    assert siblings[..SectionLength(siblings, 0)] == siblings[..i];
    SpacedContent(texts);
    r := Attr(Some(content));
  }

  /** The loop's guard held at `i`, so the section goes on past it. */
  lemma SectionStep(siblings: seq<Sibling>, i: nat)
    requires i < |siblings| && i <= SectionLength(siblings, 0) && !IsHeading(siblings[i])
    ensures i + 1 <= SectionLength(siblings, 0)
  {
  }

  /** One pass of the loop: the texts and the content grow by the trimmed text, when it is not blank. */
  lemma LoopStep(siblings: seq<Sibling>, i: nat, texts: seq<string>)
    requires i < |siblings| && texts == Texts(siblings[..i])
    ensures var t := Trim(Js, siblings[i].text);
      Texts(siblings[..i + 1]) == (if |t| > 0 then texts + [t] else texts) &&
      Spaced(texts + [t]) == Spaced(texts) + t + " "
  {
    TextsStep(siblings, i);
    SpacedSnoc(texts, Trim(Js, siblings[i].text));
  }

  /** One more sibling adds its trimmed text, when it is not blank. */
  lemma TextsStep(siblings: seq<Sibling>, i: nat)
    requires i < |siblings|
    ensures var t := Trim(Js, siblings[i].text);
      Texts(siblings[..i + 1]) == Texts(siblings[..i]) + (if |t| > 0 then [t] else [])
  {
    assert siblings[..i + 1][..i] == siblings[..i];
  }

  lemma SpacedSnoc(ts: seq<string>, t: string)
    ensures Spaced(ts + [t]) == Spaced(ts) + t + " "
  {
    assert (ts + [t])[..|ts|] == ts;
  }

  /** The number of siblings before the first heading is the one the loop's exit singles out. */
  lemma SectionLengthIs(siblings: seq<Sibling>, n: nat)
    requires n <= |siblings|
    requires forall j :: 0 <= j < n ==> !IsHeading(siblings[j])
    requires n < |siblings| ==> IsHeading(siblings[n])
    ensures SectionLength(siblings, 0) == n
  {
  }

  /** `content.trim() || null` on the spaced texts: the texts joined by single spaces, or null. */
  lemma SpacedContent(ts: seq<string>)
    requires forall k :: 0 <= k < |ts| ==> ts[k] != [] && !IsJsSpace(ts[k][0]) && !IsJsSpace(ts[k][|ts[k]| - 1])
    ensures Attr(Some(Spaced(ts))) == if ts == [] then None else Some(Join(ts, " "))
  {
    if ts != [] {
      SpacedJoin(ts);
      TrimSpaced(ts);
    }
  }

  /** The spaced texts are the joined texts and one more space. */
  lemma {:induction false} SpacedJoin(ts: seq<string>)
    requires ts != []
    ensures Spaced(ts) == Join(ts, " ") + " "
  {
    var n := |ts| - 1;
    if n > 0 {
      SpacedJoin(ts[..n]);
      JoinSnoc(ts[..n], ts[n], " ");
      assert ts[..n] + [ts[n]] == ts;
    }
  }

  lemma {:induction false} JoinSnoc(ts: seq<string>, t: string, sep: string)
    requires ts != []
    ensures Join(ts + [t], sep) == Join(ts, sep) + sep + t
  {
    if |ts| == 1 {
      assert (ts + [t])[1..] == [t];
    } else {
      assert (ts + [t])[1..] == ts[1..] + [t];
      JoinSnoc(ts[1..], t, sep);
    }
  }

  lemma {:induction false} JoinEnds(ts: seq<string>, sep: string)
    requires ts != [] && forall k :: 0 <= k < |ts| ==> ts[k] != []
    ensures var j := Join(ts, sep); j != [] && j[0] == ts[0][0] && j[|j| - 1] == ts[|ts| - 1][|ts[|ts| - 1]| - 1]
  {
    if |ts| > 1 {
      var rest := ts[1..];
      var jr := Join(rest, sep);
      if |rest| > 1 {
        JoinEnds(rest, sep);
      } else {
        assert jr == rest[0];
      }
      assert Join(ts, sep) == ts[0] + sep + jr;
      assert rest[|rest| - 1] == ts[|ts| - 1];
    }
  }

  /** Trimming the spaced texts leaves them joined by single spaces. */
  lemma TrimSpaced(ts: seq<string>)
    requires ts != []
    requires forall k :: 0 <= k < |ts| ==> ts[k] != [] && !IsJsSpace(ts[k][0]) && !IsJsSpace(ts[k][|ts[k]| - 1])
    requires Spaced(ts) == Join(ts, " ") + " "
    ensures Trim(Js, Spaced(ts)) == Join(ts, " ")
  {
    var j := Join(ts, " ");
    var s := j + " ";
    JoinEnds(ts, " ");
    assert s[0..|j|] == j && s[..0] == [] && s[|j|..] == " ";
    TrimOf(Js, s, 0, j);
  }

  /** The content, when there is one, is non-empty and neither starts nor ends with white space. */
  lemma SectionContentTrimmed(following: Option<seq<Sibling>>)
    ensures var r := SectionContent(following);
      r.Some? ==> r.value != [] && !IsJsSpace(r.value[0]) && !IsJsSpace(r.value[|r.value| - 1])
  {
    if following.Some? {
      var siblings := following.value;
      var ts := Texts(siblings[..SectionLength(siblings, 0)]);
      if ts != [] {
        JoinEnds(ts, " ");
      }
    }
  }

  /** Only what precedes the next heading counts: anything after it is ignored. */
  lemma StopsAtHeading(before: seq<Sibling>, heading: Sibling, after: seq<Sibling>)
    requires forall j :: 0 <= j < |before| ==> !IsHeading(before[j])
    requires IsHeading(heading)
    ensures SectionContent(Some(before + [heading] + after)) == SectionContent(Some(before))
  {
    var s := before + [heading] + after;
    assert s[|before|] == heading;
    forall j | 0 <= j < |before| ensures !IsHeading(s[j]) {
      assert s[j] == before[j];
    }
    SectionLengthIs(s, |before|);
    SectionLengthIs(before, |before|);
    assert s[..|before|] == before;
    assert before[..|before|] == before;
  }

  /** The content holds no blank text: a section of blank elements has none. */
  lemma {:induction false} BlankSection(siblings: seq<Sibling>)
    requires forall j :: 0 <= j < |siblings| ==> Blank(Js, siblings[j].text)
    ensures Texts(siblings) == []
  {
    if siblings != [] {
      BlankSection(siblings[..|siblings| - 1]);
    }
  }
}
