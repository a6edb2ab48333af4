/**
 * `config/convert_plant_to_json.js`: reads the plant Markdown table line by
 * line, keeps the first row of each Latin name, numbers the kept plants from
 * 1 and reports how many there are. Reading and writing the files is left
 * out: the script's input is the file's text and its output the JSON data.
 */
module ConvertPlantToJson {
  import opened Text

  /** One object of the `plants` array. */
  datatype Plant = Plant(id: nat, latinName: string, url: Option<string>, commonName: string,
                         edibilityRating: int, medicinalRating: int)

  /** What a table line contributes, before the uniqueness check gives it an id. */
  datatype Row = Row(latinName: string, url: Option<string>, commonName: string,
                     edibilityRating: int, medicinalRating: int)

  function PlantOf(id: nat, r: Row): Plant {
    Plant(id, r.latinName, r.url, r.commonName, r.edibilityRating, r.medicinalRating)
  }

  // ------------------------------------------------------------------ /\[(.*?)\]\((.*?)\)/

  /** The lazy `(.*?)\)` from `m`: the first ')' before any line terminator. */
  function CloseParen(s: string, m: nat): (r: Option<nat>)
    requires m <= |s|
    ensures r.Some? ==> m <= r.value < |s| && s[r.value] == ')'
    decreases |s| - m
  {
    if m < |s| && s[m] == ')' then Some(m)
    else if m >= |s| || IsLineTerminator(s[m]) then None
    else CloseParen(s, m + 1)
  }

  /**
   * The lazy `(.*?)\]\((.*?)\)` after a '[' at `i`, trying the end of the
   * first group at `j` and backtracking to longer first groups.
   */
  function LinkFrom(s: string, i: nat, j: nat): Option<(string, string)>
    requires i < j <= |s|
    decreases |s| - j
  {
    var close := if j + 1 < |s| && s[j] == ']' && s[j + 1] == '(' then CloseParen(s, j + 2) else None;
    if close.Some? then Some((s[i + 1..j], s[j + 2..close.value]))
    else if j >= |s| || IsLineTerminator(s[j]) then None
    else LinkFrom(s, i, j + 1)
  }

  /** `s.match(regex)` from `i`: the leftmost match, its two groups. */
  function FirstLink(s: string, i: nat): Option<(string, string)>
    requires i <= |s|
    decreases |s| - i
  {
    if i == |s| then None
    else if s[i] == '[' && LinkFrom(s, i, i + 1).Some? then LinkFrom(s, i, i + 1)
    else FirstLink(s, i + 1)
  }

  /** Without a '[' the regex cannot match: the whole cell is the Latin name. */
  lemma {:induction false} NoBracketNoLink(s: string, i: nat)
    requires i <= |s| && forall k :: i <= k < |s| ==> s[k] != '['
    ensures FirstLink(s, i) == None
    decreases |s| - i
  {
    if i < |s| {
      NoBracketNoLink(s, i + 1);
    }
  }

  lemma {:induction false} CloseParenSkips(s: string, m: nat, e: nat)
    requires m <= e < |s| && s[e] == ')'
    requires forall k :: m <= k < e ==> s[k] != ')' && !IsLineTerminator(s[k])
    ensures CloseParen(s, m) == Some(e)
    decreases e - m
  {
    if m < e {
      CloseParenSkips(s, m + 1, e);
    }
  }

  lemma {:induction false} LinkFromSkips(s: string, i: nat, j: nat, e: nat)
    requires i < j <= e < |s|
    requires forall k :: j <= k < e ==> s[k] != ']' && !IsLineTerminator(s[k])
    ensures LinkFrom(s, i, j) == LinkFrom(s, i, e)
    decreases e - j
  {
    if j < e {
      LinkFromSkips(s, i, j + 1, e);
    }
  }

  /** The characters of `[n](u)`. */
  predicate LinkShape(s: string, n: string, u: string) {
    && |s| == |n| + |u| + 4
    && s[0] == '[' && s[|n| + 1] == ']' && s[|n| + 2] == '(' && s[|n| + |u| + 3] == ')'
    && s[1..|n| + 1] == n && s[|n| + 3..|n| + |u| + 3] == u
  }

  lemma LinkShapeOf(n: string, u: string)
    ensures LinkShape("[" + n + "](" + u + ")", n, u)
  {
    var s := "[" + n + "](" + u + ")";
    assert s[1..|n| + 1] == n;
    assert s[|n| + 3..|n| + |u| + 3] == u;
  }

  /** A cell `[n](u)`, with no ']' or line break in `n` and no ')' or line break in `u`, gives `n` and `u`. */
  lemma LinkCell(n: string, u: string)
    requires forall k :: 0 <= k < |n| ==> n[k] != ']' && !IsLineTerminator(n[k])
    requires forall k :: 0 <= k < |u| ==> u[k] != ')' && !IsLineTerminator(u[k])
    ensures FirstLink("[" + n + "](" + u + ")", 0) == Some((n, u))
  {
    var s := "[" + n + "](" + u + ")";
    LinkShapeOf(n, u);
    var j := |n| + 1;
    forall k | 1 <= k < j ensures s[k] != ']' && !IsLineTerminator(s[k]) {
      assert s[k] == s[1..|n| + 1][k - 1];
    }
    LinkFromSkips(s, 0, 1, j);
    var e := |n| + |u| + 3;
    forall k | j + 2 <= k < e ensures s[k] != ')' && !IsLineTerminator(s[k]) {
      assert s[k] == s[|n| + 3..|n| + |u| + 3][k - (|n| + 3)];
    }
    CloseParenSkips(s, j + 2, e);
    assert LinkFrom(s, 0, j) == Some((n, u));
  }

  // ------------------------------------------------------------------ cells

  /** `.map(cell => cell.trim()).filter(cell => cell)`. */
  function Keep(parts: seq<string>): (cells: seq<string>)
    ensures |cells| <= |parts|
    ensures forall k :: 0 <= k < |cells| ==> cells[k] != []
  {
    if parts == [] then [] else KeepCell(parts[0]) + Keep(parts[1..])
  }

  /** One part, trimmed, or nothing when it is blank. */
  function KeepCell(part: string): (r: seq<string>)
    ensures |r| <= 1 && (r == [] <==> Blank(Js, part))
    ensures forall k :: 0 <= k < |r| ==> r[k] == Trim(Js, part) && r[k] != []
  {
    var t := Trim(Js, part);
    if t == [] then [] else [t]
  }

  lemma {:induction false} KeepAppend(a: seq<string>, b: seq<string>)
    ensures Keep(a + b) == Keep(a) + Keep(b)
  {
    if a != [] {
      assert (a + b)[0] == a[0];
      assert (a + b)[1..] == a[1..] + b;
      KeepAppend(a[1..], b);
      var h := KeepCell(a[0]);
      assert Keep(a + b) == h + Keep(a[1..] + b);
      assert Keep(a) == h + Keep(a[1..]);
      assert h + (Keep(a[1..]) + Keep(b)) == (h + Keep(a[1..])) + Keep(b);
    } else {
      assert a + b == b;
    }
  }

  /** A blank cell vanishes, so the cells after it move one column left. */
  lemma BlankCellDropped(a: seq<string>, blank: string, b: seq<string>)
    requires Blank(Js, blank)
    ensures Keep(a + [blank] + b) == Keep(a + b)
  {
    KeepAppend(a + [blank], b);
    KeepAppend(a, [blank]);
    KeepAppend(a, b);
  }

  /** The cells of a table line. */
  function Cells(line: string): seq<string> {
    Keep(Split(line, '|'))
  }

  /** A line that joins its parts with '|' has as cells the non-blank parts, trimmed. */
  lemma CellsOfParts(parts: seq<string>)
    requires |parts| >= 1 && forall i :: 0 <= i < |parts| ==> '|' !in parts[i]
    ensures Cells(Join(parts, "|")) == Keep(parts)
  {
    SplitJoin(parts, '|');
  }

  // ------------------------------------------------------------------ one line

  /** `parseInt(cell) || 0`. */
  function Rating(cell: string): (r: int)
    ensures r == 0 || ParseInt(cell) == Some(r)
    ensures ParseInt(cell).None? ==> r == 0
    ensures ParseInt(cell).Some? ==> r == ParseInt(cell).value
  {
    ParseIntOr(cell, 0)
  }

  /** The Latin name a first cell gives: the link text when it holds a Markdown link, otherwise the cell. */
  function CellName(cell: string): string {
    var link := FirstLink(cell, 0);
    if link.Some? then link.value.0 else cell
  }

  /** The URL a first cell gives: the link target when it holds a Markdown link, otherwise none. */
  function CellUrl(cell: string): Option<string> {
    var link := FirstLink(cell, 0);
    if link.Some? then Some(link.value.1) else None
  }

  /** A cell `[n](u)` gives the name n and the URL u; a cell without '[' is the name itself, without URL. */
  lemma CellNameUrl(cell: string, n: string, u: string)
    requires forall k :: 0 <= k < |n| ==> n[k] != ']' && !IsLineTerminator(n[k])
    requires forall k :: 0 <= k < |u| ==> u[k] != ')' && !IsLineTerminator(u[k])
    ensures cell == "[" + n + "](" + u + ")" ==> CellName(cell) == n && CellUrl(cell) == Some(u)
    ensures '[' !in cell ==> CellName(cell) == cell && CellUrl(cell) == None
  {
    if cell == "[" + n + "](" + u + ")" {
      LinkCell(n, u);
    }
    if '[' !in cell {
      NoBracketNoLink(cell, 0);
    }
  }

  /**
   * A line of the table: trimmed, it must start with '|' and have at least
   * four non-empty cells; the first cell gives the Latin name (and the URL
   * when it holds a Markdown link).
   */
  function ParseRow(raw: string): (r: Option<Row>)
    ensures r.Some? ==> var line := Trim(Js, raw);
      line != [] && line[0] == '|' && |Cells(line)| >= 4
      && r.value.latinName == CellName(Cells(line)[0])
      && r.value.url == CellUrl(Cells(line)[0])
      && r.value.commonName == Cells(line)[1]
      && r.value.edibilityRating == Rating(Cells(line)[2])
      && r.value.medicinalRating == Rating(Cells(line)[3])
    ensures r.None? ==> var line := Trim(Js, raw);
      line == [] || line[0] != '|' || |Cells(line)| < 4
  {
    var line := Trim(Js, raw);
    if line == [] || line[0] != '|' then None
    else
      var cells := Cells(line);
      if |cells| < 4 then None
      else
        Some(Row(CellName(cells[0]), CellUrl(cells[0]), cells[1], Rating(cells[2]), Rating(cells[3])))
  }

  // ------------------------------------------------------------------ the table

  function Names(plants: seq<Plant>): set<string> {
    set k | 0 <= k < |plants| :: plants[k].latinName
  }

  lemma NamesSnoc(plants: seq<Plant>, p: Plant)
    ensures Names(plants + [p]) == Names(plants) + {p.latinName}
  {
    var t := plants + [p];
    forall x | x in Names(t) ensures x in Names(plants) + {p.latinName} {
      var k :| 0 <= k < |t| && t[k].latinName == x;
      if k < |plants| {
        assert plants[k].latinName == x;
      }
    }
    forall x | x in Names(plants) ensures x in Names(t) {
      var k :| 0 <= k < |plants| && plants[k].latinName == x;
      assert t[k].latinName == x;
    }
    assert t[|plants|].latinName == p.latinName;
  }

  /** The ids run 1, 2, 3, … in order. */
  predicate Numbered(plants: seq<Plant>) {
    forall k :: 0 <= k < |plants| ==> plants[k].id == k + 1
  }

  /** No two plants share a Latin name. */
  predicate UniqueNames(plants: seq<Plant>) {
    forall i, j :: 0 <= i < j < |plants| ==> plants[i].latinName != plants[j].latinName
  }

  /** One parsed line: a row with a new name is appended under the next id, anything else is skipped. */
  function AddRow(plants: seq<Plant>, r: Option<Row>): (res: seq<Plant>)
    ensures Numbered(plants) && UniqueNames(plants) ==> Numbered(res) && UniqueNames(res)
    ensures res == plants || (r.Some? && r.value.latinName !in Names(plants) && res == plants + [PlantOf(|plants| + 1, r.value)])
  {
    if r.Some? && r.value.latinName !in Names(plants) then
      assert forall k :: 0 <= k < |plants| ==> plants[k].latinName in Names(plants);
      plants + [PlantOf(|plants| + 1, r.value)]
    else plants
  }

  /** The plants the parsed lines give: a row whose name is already taken is skipped. */
  function Collect(rows: seq<Option<Row>>): (plants: seq<Plant>)
    ensures Numbered(plants) && UniqueNames(plants)
  {
    if rows == [] then [] else AddRow(Collect(rows[..|rows| - 1]), rows[|rows| - 1])
  }

  /** The Latin names kept are exactly those of the rows. */
  lemma {:induction false} CollectNames(rows: seq<Option<Row>>, n: string)
    ensures n in Names(Collect(rows)) <==> exists i :: 0 <= i < |rows| && rows[i].Some? && rows[i].value.latinName == n
  {
    if rows != [] {
      var init := rows[..|rows| - 1];
      var prev := Collect(init);
      CollectNames(init, n);
      if rows[|rows| - 1].Some? && rows[|rows| - 1].value.latinName !in Names(prev) {
        NamesSnoc(prev, PlantOf(|prev| + 1, rows[|rows| - 1].value));
      }
      if exists i :: 0 <= i < |init| && init[i].Some? && init[i].value.latinName == n {
        var i :| 0 <= i < |init| && init[i].Some? && init[i].value.latinName == n;
        assert rows[i] == init[i];
      }
      if exists i :: 0 <= i < |rows| && rows[i].Some? && rows[i].value.latinName == n {
        var i :| 0 <= i < |rows| && rows[i].Some? && rows[i].value.latinName == n;
        if i < |init| {
          assert init[i] == rows[i];
        }
      }
    }
  }

  /** The first row with a name is the one kept, with all its fields, under the id of its position. */
  lemma {:induction false} FirstOccurrenceKept(rows: seq<Option<Row>>, i: int)
    requires 0 <= i < |rows| && rows[i].Some?
    requires forall j :: 0 <= j < i && rows[j].Some? ==> rows[j].value.latinName != rows[i].value.latinName
    ensures exists k :: 0 <= k < |Collect(rows)| && Collect(rows)[k] == PlantOf(k + 1, rows[i].value)
  {
    var init := rows[..|rows| - 1];
    var prev := Collect(init);
    if i < |init| {
      FirstOccurrenceKept(init, i);
      assert init[i] == rows[i];
      var k :| 0 <= k < |prev| && prev[k] == PlantOf(k + 1, rows[i].value);
      assert Collect(rows)[k] == prev[k];
    } else {
      var n := rows[i].value.latinName;
      CollectNames(init, n);
      assert n !in Names(prev);
      assert Collect(rows)[|prev|] == PlantOf(|prev| + 1, rows[i].value);
    }
  }

  /** The lines after the two header lines. */
  function Body(lines: seq<string>): seq<string> {
    if |lines| <= 2 then [] else lines[2..]
  }

  /** Each line parsed on its own. */
  function Parsed(lines: seq<string>): (rows: seq<Option<Row>>)
    ensures |rows| == |lines|
  {
    if lines == [] then [] else Parsed(lines[..|lines| - 1]) + [ParseRow(lines[|lines| - 1])]
  }

  lemma ParsedSnoc(lines: seq<string>, line: string)
    ensures Parsed(lines + [line]) == Parsed(lines) + [ParseRow(line)]
  {
    assert (lines + [line])[..|lines|] == lines;
  }

  lemma ParsedStep(lines: seq<string>, i: int)
    requires 2 <= i < |lines|
    ensures Parsed(lines[2..i + 1]) == Parsed(lines[2..i]) + [ParseRow(lines[i])]
  {
    assert lines[2..i + 1] == lines[2..i] + [lines[i]];
    ParsedSnoc(lines[2..i], lines[i]);
  }

  lemma ParsedAt(lines: seq<string>, k: int)
    requires 0 <= k < |lines|
    ensures Parsed(lines)[k] == ParseRow(lines[k])
    decreases |lines|
  {
    if k < |lines| - 1 {
      assert lines[..|lines| - 1][k] == lines[k];
      ParsedAt(lines[..|lines| - 1], k);
    }
  }

  /** One more line: its row is kept exactly when it parses and its name is new. */
  lemma CollectSnoc(rows: seq<Option<Row>>, r: Option<Row>)
    ensures Collect(rows + [r]) == AddRow(Collect(rows), r)
  {
    assert (rows + [r])[..|rows|] == rows;
  }

  /** One more line adds its parsed row to the plants collected so far. */
  lemma CollectStep(lines: seq<string>, i: int)
    requires 2 <= i < |lines|
    ensures Collect(Parsed(lines[2..i + 1])) == AddRow(Collect(Parsed(lines[2..i])), ParseRow(lines[i]))
  {
    ParsedStep(lines, i);
    CollectSnoc(Parsed(lines[2..i]), ParseRow(lines[i]));
  }

  /** The body of the `for` loop: a row with a new Latin name is added under the next id. */
  method AddLine(plants: seq<Plant>, latinNameSet: set<string>, id: nat, line: string)
    returns (plants': seq<Plant>, latinNameSet': set<string>, id': nat)
    requires latinNameSet == Names(plants) && id == |plants| + 1
    ensures plants' == AddRow(plants, ParseRow(line))
    ensures latinNameSet' == Names(plants') && id' == |plants'| + 1
  {
    plants', latinNameSet', id' := plants, latinNameSet, id;
    var row := ParseRow(line);
    if row.Some? {
      var latinName := row.value.latinName;
      if latinName !in latinNameSet {
        latinNameSet' := latinNameSet + {latinName};
        NamesSnoc(plants, PlantOf(id, row.value));
        plants' := plants + [PlantOf(id, row.value)];
        id' := id + 1;
      }
    }
  }

  /** One turn of the `for` loop: line `i` joins the plants collected from the lines before it. */
  method NextLine(lines: seq<string>, i: int, plants: seq<Plant>, latinNameSet: set<string>, id: nat)
    returns (plants': seq<Plant>, latinNameSet': set<string>, id': nat)
    requires 2 <= i < |lines|
    requires plants == Collect(Parsed(lines[2..i]))
    requires latinNameSet == Names(plants) && id == |plants| + 1
    ensures plants' == Collect(Parsed(lines[2..i + 1]))
    ensures latinNameSet' == Names(plants') && id' == |plants'| + 1
  {
    CollectStep(lines, i);
    plants', latinNameSet', id' := AddLine(plants, latinNameSet, id, lines[i]);
  }

  /** The `for` loop over the lines after the header. */
  method CollectLines(lines: seq<string>) returns (plants: seq<Plant>)
    ensures plants == Collect(Parsed(Body(lines)))
  {
    plants := [];
    var latinNameSet: set<string> := {};
    var id := 1;
    if |lines| <= 2 {
      return;
    }
    var i := 2;
    while i < |lines|
      invariant 2 <= i <= |lines|
      invariant plants == Collect(Parsed(lines[2..i]))
      invariant latinNameSet == Names(plants) && id == |plants| + 1
    {
      plants, latinNameSet, id := NextLine(lines, i, plants, latinNameSet, id);
      i := i + 1;
    }
    assert lines[2..i] == Body(lines);
  }

  /** The whole script: `totalPlants` and `plants` of the JSON written. */
  method Convert(content: string) returns (totalPlants: nat, plants: seq<Plant>)
    ensures plants == Collect(Parsed(Body(Split(content, '\n'))))
    ensures totalPlants == |plants|
  {
    plants := CollectLines(Split(content, '\n'));
    totalPlants := |plants|;
  }
}
