/**
 * The `database:structure` command: for every public table it writes a
 * Markdown report (columns, constraints, foreign keys, indexes), a short
 * TXT report (columns only) and a JSON structure. The catalogue queries
 * are inputs: each table arrives with the rows its queries returned.
 */
module DatabaseStructure {
  import opened Text

  // ------------------------------------------------------------------ query rows

  /**
   * One row of the column query. `typeWithLength` reads `numeric_precision`
   * and `numeric_scale`, but the query does not select them, so in every row
   * the command sees both are absent (`QueryRow`).
   */
  datatype Column = Column(
    name: string,
    dataType: string,
    maxLength: Option<int>,
    isNullable: string,
    defaultValue: Option<string>,
    comment: Option<string>,
    numericPrecision: Option<int>,
    numericScale: Option<int>)

  /** One row of the constraint query: a constraint and one of its columns. */
  datatype ConstraintRow = ConstraintRow(name: string, ctype: string, column: string)

  datatype ForeignKey = ForeignKey(
    name: string, column: string, refTable: string, refColumn: string,
    matchOption: string, updateRule: string, deleteRule: string)

  datatype IndexRow = IndexRow(name: string, def: string, unique: bool)

  /** A table with the rows of its four queries. */
  datatype Table = Table(
    name: string, columns: seq<Column>, constraints: seq<ConstraintRow>,
    foreignKeys: seq<ForeignKey>, indexes: seq<IndexRow>)

  /** JavaScript truthiness of a number that may be null. */
  predicate TruthyInt(v: Option<int>) { v.Some? && v.value != 0 }

  /** `${n}` for an integer. */
  function IntToString(n: int): (r: string)
    ensures r != []
  {
    if n < 0 then "-" + NatToString(-n) else NatToString(n)
  }

  // ------------------------------------------------------------------ constraint grouping

  datatype Group = Group(ctype: string, columns: seq<string>)

  /** `constraintsMap`: the groups, with the names in insertion order. */
  datatype Grouping = Grouping(names: seq<string>, groups: map<string, Group>)

  /** One row of the `forEach`: a new name takes the row's type, every row pushes its column. */
  function GroupRow(g: Grouping, row: ConstraintRow): Grouping {
    if row.name in g.groups then
      var old_ := g.groups[row.name];
      Grouping(g.names, g.groups[row.name := Group(old_.ctype, old_.columns + [row.column])])
    else
      Grouping(g.names + [row.name], g.groups[row.name := Group(row.ctype, [row.column])])
  }

  function Grouped(rows: seq<ConstraintRow>): Grouping {
    if rows == [] then Grouping([], map[])
    else GroupRow(Grouped(rows[..|rows| - 1]), rows[|rows| - 1])
  }

  /** The names of the rows, in row order. */
  function NamesOf(rows: seq<ConstraintRow>): (r: seq<string>)
    ensures |r| == |rows|
    ensures forall i :: 0 <= i < |rows| ==> r[i] == rows[i].name
  {
    if rows == [] then [] else NamesOf(rows[..|rows| - 1]) + [rows[|rows| - 1].name]
  }

  /** The columns of the rows named `n`, in row order. */
  function ColumnsOf(rows: seq<ConstraintRow>, n: string): seq<string> {
    if rows == [] then []
    else ColumnsOf(rows[..|rows| - 1], n) + (if rows[|rows| - 1].name == n then [rows[|rows| - 1].column] else [])
  }

  lemma {:induction false} ColumnsOfAbsent(rows: seq<ConstraintRow>, n: string)
    requires forall i :: 0 <= i < |rows| ==> rows[i].name != n
    ensures ColumnsOf(rows, n) == []
  {
    if rows != [] {
      ColumnsOfAbsent(rows[..|rows| - 1], n);
    }
  }

  /** Row `i` is the first row named `n`. */
  predicate FirstRowOf(rows: seq<ConstraintRow>, n: string, i: int) {
    0 <= i < |rows| && rows[i].name == n && forall j :: 0 <= j < i ==> rows[j].name != n
  }

  /**
   * The names are the distinct constraint names in first-appearance order
   * (the order `Object.entries` lists them), and they are the map's keys.
   */
  lemma {:induction false} GroupedNames(rows: seq<ConstraintRow>)
    ensures Grouped(rows).names == Dedup(NamesOf(rows))
    ensures forall n :: n in Grouped(rows).groups <==> n in Grouped(rows).names
  {
    if rows != [] {
      var init := rows[..|rows| - 1];
      GroupedNames(init);
      assert NamesOf(rows)[..|rows| - 1] == NamesOf(init);
      assert rows[|rows| - 1].name in NamesOf(init) <==> rows[|rows| - 1].name in Grouped(init).names;
    }
  }

  /**
   * One entry per constraint name: a name has a group iff some row carries
   * it, the group's type is that of the first such row and its columns are
   * the columns of those rows in row order.
   */
  lemma {:induction false} GroupedMeaning(rows: seq<ConstraintRow>, n: string)
    ensures n in Grouped(rows).groups <==> exists i :: 0 <= i < |rows| && rows[i].name == n
    ensures n in Grouped(rows).groups ==>
      && Grouped(rows).groups[n].columns == ColumnsOf(rows, n)
      && exists i :: FirstRowOf(rows, n, i) && rows[i].ctype == Grouped(rows).groups[n].ctype
  {
    if rows != [] {
      var init := rows[..|rows| - 1];
      var last := rows[|rows| - 1];
      GroupedMeaning(init, n);
      if n in Grouped(init).groups {
        var i :| FirstRowOf(init, n, i) && init[i].ctype == Grouped(init).groups[n].ctype;
        assert FirstRowOf(rows, n, i);
      } else if last.name == n {
        assert FirstRowOf(rows, n, |rows| - 1);
      }
      if n !in Grouped(init).groups {
        assert forall i :: 0 <= i < |init| ==> init[i].name != n;
        ColumnsOfAbsent(init, n);
        if last.name != n {
          assert forall i :: 0 <= i < |rows| && rows[i].name == n ==> i < |rows| - 1 && init[i].name == n;
        }
      }
    }
  }

  /** The `forEach` that fills `constraintsMap`. */
  method GroupConstraints(rows: seq<ConstraintRow>) returns (g: Grouping)
    ensures g == Grouped(rows)
  {
    var names: seq<string> := [];
    var groups: map<string, Group> := map[];
    for i := 0 to |rows|
      invariant Grouping(names, groups) == Grouped(rows[..i])
    {
      assert rows[..i + 1][..i] == rows[..i];
      var row := rows[i];
      ghost var prev := Grouped(rows[..i]);
      assert Grouped(rows[..i + 1]) == GroupRow(prev, row);
      ghost var isNew := row.name !in groups;
      if row.name !in groups {
        names := names + [row.name];
        groups := groups[row.name := Group(row.ctype, [])];
      }
      groups := groups[row.name := Group(groups[row.name].ctype, groups[row.name].columns + [row.column])];
      if isNew {
        assert [] + [row.column] == [row.column];
        assert groups == prev.groups[row.name := Group(row.ctype, [row.column])];
      }
    }
    assert rows[..|rows|] == rows;
    g := Grouping(names, groups);
  }

  // ------------------------------------------------------------------ indexes

  /** An opening parenthesis at `i` that the pattern `\(([^)]+)\)` can match from. */
  predicate OpensGroup(s: string, i: int) {
    0 <= i < |s| && s[i] == '(' && ')' in s[i + 1..] && s[i + 1] != ')'
  }

  /** The text between the parenthesis at `i` and the first ')' after it. */
  function GroupAt(s: string, i: int): string
    requires OpensGroup(s, i)
  {
    s[i + 1..i + 1 + FirstIndex(s[i + 1..], ')')]
  }

  /** `s.match(/\(([^)]+)\)/)?.[1]`: the leftmost match's group. */
  function ParenGroup(s: string): (r: Option<string>)
    ensures r.Some? ==> r.value != [] && ')' !in r.value && Contains(s, "(" + r.value + ")")
    decreases |s|
  {
    if s == [] then None
    else if OpensGroup(s, 0) then
      var g := GroupAt(s, 0);
      var j := FirstIndex(s[1..], ')');
      assert j > 0 && g == s[1..][..j];
      assert s[..|g| + 2] == "(" + g + ")";
      ContainsAt(s, "(" + g + ")", 0);
      Some(g)
    else
      var r := ParenGroup(s[1..]);
      if r.Some? then
        ContainsAppend(s[..1], s[1..], "(" + r.value + ")");
        assert s[..1] + s[1..] == s;
        r
      else r
  }

  lemma OpensShift(s: string, i: int)
    requires 1 <= i < |s|
    ensures OpensGroup(s, i) <==> OpensGroup(s[1..], i - 1)
    ensures OpensGroup(s, i) ==> GroupAt(s, i) == GroupAt(s[1..], i - 1)
  {
    assert s[i] == s[1..][i - 1];
    assert s[i + 1..] == s[1..][i..];
    if i + 1 < |s| {
      assert s[i + 1] == s[1..][i];
    }
  }

  /** There is no match exactly when no parenthesis can start one. */
  lemma {:induction false} ParenGroupNone(s: string)
    ensures ParenGroup(s).None? <==> forall i :: 0 <= i < |s| ==> !OpensGroup(s, i)
    decreases |s|
  {
    if s != [] && !OpensGroup(s, 0) {
      ParenGroupNone(s[1..]);
      forall i | 1 <= i < |s| ensures OpensGroup(s, i) <==> OpensGroup(s[1..], i - 1) {
        OpensShift(s, i);
      }
      if ParenGroup(s[1..]).Some? {
        var j :| 0 <= j < |s| - 1 && OpensGroup(s[1..], j);
        assert OpensGroup(s, j + 1);
      }
    }
  }

  /** The match is the leftmost parenthesis the pattern can start from. */
  lemma {:induction false} ParenGroupLeftmost(s: string, i: int)
    requires OpensGroup(s, i)
    requires forall j :: 0 <= j < i ==> !OpensGroup(s, j)
    ensures ParenGroup(s) == Some(GroupAt(s, i))
    decreases i
  {
    if i > 0 {
      assert !OpensGroup(s, 0);
      OpensShift(s, i);
      forall j | 0 <= j < i - 1 ensures !OpensGroup(s[1..], j) {
        OpensShift(s, j + 1);
      }
      ParenGroupLeftmost(s[1..], i - 1);
    }
  }

  /** `columnsMatch ? columnsMatch[1] : ''`. */
  function IndexColumns(def: string): (r: string)
    ensures r == [] <==> forall i :: 0 <= i < |def| ==> !OpensGroup(def, i)
    ensures r != [] ==> ')' !in r && Contains(def, "(" + r + ")")
  {
    ParenGroupNone(def);
    match ParenGroup(def)
    case Some(g) => g
    case None => ""
  }

  /** The three tests on the lowercased definition, each overwriting the last. */
  function IndexType(def: string): (r: string)
    ensures var d := Lower(def);
      && (r == "HASH" <==> Contains(d, "hash"))
      && (r == "GIN" <==> Contains(d, "gin") && !Contains(d, "hash"))
      && (r == "GIST" <==> Contains(d, "gist") && !Contains(d, "gin") && !Contains(d, "hash"))
      && (r == "BTREE" <==> !Contains(d, "gist") && !Contains(d, "gin") && !Contains(d, "hash"))
  {
    var d := Lower(def);
    var t0 := "BTREE";
    var t1 := if Contains(d, "gist") then "GIST" else t0;
    var t2 := if Contains(d, "gin") then "GIN" else t1;
    if Contains(d, "hash") then "HASH" else t2
  }

  /**
   * The test reads the whole definition, the index name included: a
   * B-tree index whose name contains "gin" is reported as GIN.
   */
  lemma IndexNameDecides(name: string, rest: string)
    requires Contains(Lower(name), "gin") && !Contains(Lower(name + rest), "hash")
    ensures IndexType(name + rest) == "GIN"
  {
    LowerAppend(name, rest);
    ContainsPrefix(Lower(name), Lower(rest), "gin");
  }

  lemma {:induction false} LowerAppend(a: string, b: string)
    ensures Lower(a + b) == Lower(a) + Lower(b)
  {
    assert forall k :: 0 <= k < |a + b| ==> Lower(a + b)[k] == (Lower(a) + Lower(b))[k];
  }

  // ------------------------------------------------------------------ column lines

  /** The length is appended when the type is not text, the length is truthy and the type shows none. */
  predicate LengthShown(c: Column) {
    c.dataType != "text" && TruthyInt(c.maxLength) && '(' !in c.dataType
  }

  /** What `typeWithLength` appends to the type name: a parenthesised length, precision and scale, or nothing. */
  function LengthSuffix(c: Column): (s: string)
    ensures s == [] <==> !LengthShown(c) && !TruthyInt(c.numericPrecision)
    ensures s != [] ==> s[0] == '(' && s[|s| - 1] == ')'
  {
    if LengthShown(c) then "(" + IntToString(c.maxLength.value) + ")"
    else if TruthyInt(c.numericPrecision) then
      "(" + IntToString(c.numericPrecision.value) + ","
        + IntToString(if TruthyInt(c.numericScale) then c.numericScale.value else 0) + ")"
    else ""
  }

  /** `typeWithLength`: the type name, unchanged unless a length or a precision is shown. */
  function TypeWithLength(c: Column): (r: string)
    ensures c.dataType <= r && r[|c.dataType|..] == LengthSuffix(c)
    ensures r == c.dataType <==> !LengthShown(c) && !TruthyInt(c.numericPrecision)
  {
    c.dataType + LengthSuffix(c)
  }

  /** A row as the column query returns it: no precision and no scale. */
  predicate QueryRow(c: Column) {
    c.numericPrecision.None? && c.numericScale.None?
  }

  /** On the query's rows the precision branch cannot run: only a shown length is appended. */
  lemma PrecisionBranchDead(c: Column)
    requires QueryRow(c)
    ensures LengthShown(c) ==> TypeWithLength(c) == c.dataType + "(" + IntToString(c.maxLength.value) + ")"
    ensures !LengthShown(c) ==> TypeWithLength(c) == c.dataType
  {
  }

  /**
   * The query computes `atttypmod - 4`, which is negative for a column
   * declared without a length; for a type name without '(' that negative
   * length is still shown.
   */
  lemma NegativeLengthShown(c: Column)
    requires c.dataType != "text" && '(' !in c.dataType && c.maxLength == Some(-5)
    ensures TypeWithLength(c) == c.dataType + "(-5)"
  {
    assert IntToString(-5) == "-5";
  }

  function NullMark(isNullable: string): string {
    if isNullable == "YES" then "(NULL)" else "(NOT NULL)"
  }

  function TxtColumnLine(c: Column): string {
    c.name + " " + TypeWithLength(c) + " " + NullMark(c.isNullable) + "\n"
  }

  /** `value || ''`. */
  function OrEmpty(v: Option<string>): (r: string)
    ensures r == (if Given(v) then v.value else "")
  {
    if v.Some? then v.value else ""
  }

  function MdColumnLine(c: Column): string {
    "| " + c.name + " | " + c.dataType + " | " + (if TruthyInt(c.maxLength) then IntToString(c.maxLength.value) else "")
      + " | " + c.isNullable + " | " + OrEmpty(c.defaultValue) + " | " + OrEmpty(c.comment) + " |\n"
  }

  /** A column of the JSON structure. */
  datatype ColumnJson = ColumnJson(dataType: string, maxLength: Option<int>, isNullable: bool, defaultValue: Option<string>)

  function ColumnJsonOf(c: Column): (j: ColumnJson)
    ensures j.isNullable <==> c.isNullable == "YES"
  {
    ColumnJson(c.dataType, c.maxLength, c.isNullable == "YES", c.defaultValue)
  }

  /** The TXT line says (NULL) exactly when the JSON says `is_nullable: true`. */
  lemma NullabilityAgrees(c: Column)
    ensures var line := TxtColumnLine(c);
      |line| >= 7 && (line[|line| - 7..] == "(NULL)\n" <==> ColumnJsonOf(c).isNullable)
  {
    var head := c.name + " " + TypeWithLength(c) + " ";
    var line := TxtColumnLine(c);
    assert line == head + NullMark(c.isNullable) + "\n";
    if c.isNullable == "YES" {
      assert line[|line| - 7..] == "(NULL)\n";
    } else {
      assert line[|line| - 7..] == " NULL)\n";
    }
  }

  // ------------------------------------------------------------------ report sections

  function MdColumnLines(cols: seq<Column>): (r: seq<string>)
    ensures |r| == |cols|
    ensures forall i :: 0 <= i < |cols| ==> r[i] == MdColumnLine(cols[i])
  {
    seq(|cols|, i requires 0 <= i < |cols| => MdColumnLine(cols[i]))
  }

  function TxtColumnLines(cols: seq<Column>): (r: seq<string>)
    ensures |r| == |cols|
    ensures forall i :: 0 <= i < |cols| ==> r[i] == TxtColumnLine(cols[i])
  {
    seq(|cols|, i requires 0 <= i < |cols| => TxtColumnLine(cols[i]))
  }

  function ConstraintLine(name: string, g: Group): string {
    "| " + name + " | " + g.ctype + " | " + Join(g.columns, ", ") + " |\n"
  }

  /** One table row per constraint name, in insertion order. */
  function ConstraintLines(g: Grouping): (r: seq<string>)
    requires forall n :: n in g.names ==> n in g.groups
    ensures |r| == |g.names|
    ensures forall i :: 0 <= i < |g.names| ==> r[i] == ConstraintLine(g.names[i], g.groups[g.names[i]])
  {
    seq(|g.names|, i requires 0 <= i < |g.names| => ConstraintLine(g.names[i], g.groups[g.names[i]]))
  }

  const FkPlaceholder := "| - | - | - | - | - | - | - |\n"

  function FkLine(fk: ForeignKey): string {
    "| " + fk.name + " | " + fk.column + " | " + fk.refTable + " | " + fk.refColumn + " | "
      + fk.matchOption + " | " + fk.updateRule + " | " + fk.deleteRule + " |\n"
  }

  /** A table with no foreign keys gets exactly one placeholder row, otherwise one row per key. */
  function FkLines(fks: seq<ForeignKey>): (r: seq<string>)
    ensures fks == [] ==> r == [FkPlaceholder]
    ensures fks != [] ==> |r| == |fks| && forall i :: 0 <= i < |fks| ==> r[i] == FkLine(fks[i])
  {
    if fks == [] then [FkPlaceholder]
    else seq(|fks|, i requires 0 <= i < |fks| => FkLine(fks[i]))
  }

  function IndexLine(ix: IndexRow): string {
    "| " + ix.name + " | " + IndexColumns(ix.def) + " | " + (if ix.unique then "是" else "否")
      + " | " + IndexType(ix.def) + " | - |\n"
  }

  function IndexLines(ixs: seq<IndexRow>): (r: seq<string>)
    ensures |r| == |ixs|
    ensures forall i :: 0 <= i < |ixs| ==> r[i] == IndexLine(ixs[i])
  {
    seq(|ixs|, i requires 0 <= i < |ixs| => IndexLine(ixs[i]))
  }

  /** The TXT header of a table: its name, then a rule of '-' as long as the name. */
  function TxtHeader(name: string): (r: string)
    ensures exists rule :: r == name + "\n" + rule + "\n" && |rule| == |name| && forall k :: 0 <= k < |rule| ==> rule[k] == '-'
  {
    RepeatDash(|name|);
    name + "\n" + Repeat("-", |name|) + "\n"
  }

  lemma {:induction false} RepeatDash(n: nat)
    ensures forall k :: 0 <= k < n ==> Repeat("-", n)[k] == '-'
  {
    if n > 0 {
      RepeatDash(n - 1);
      assert Repeat("-", n) == "-" + Repeat("-", n - 1);
    }
  }

  /** `acc` after `acc += line` for each line in turn. */
  function Appended(acc: string, lines: seq<string>): string {
    if lines == [] then acc else Appended(acc, lines[..|lines| - 1]) + lines[|lines| - 1]
  }

  /** Appending never changes what was written before. */
  lemma {:induction false} AppendedPrefix(acc: string, lines: seq<string>)
    ensures acc <= Appended(acc, lines)
  {
    if lines != [] {
      AppendedPrefix(acc, lines[..|lines| - 1]);
    }
  }

  /** The TXT report after the section of one table is appended to `acc`. */
  function TxtSectionAfter(acc: string, t: Table): string {
    Appended(acc + TxtHeader(t.name), TxtColumnLines(t.columns)) + "\n"
  }

  /** The Markdown report after the section of one table is appended to `acc`. */
  function MdSectionAfter(acc: string, t: Table): string {
    var a := Appended(acc + "## " + t.name + " 表\n\n" + "### 字段信息\n" + MdColumnHead, MdColumnLines(t.columns));
    var b := Appended(a + "\n" + "### 约束信息\n" + MdConstraintHead, ConstraintLinesOf(t.constraints));
    var c := Appended(b + "\n" + "### 外键关联\n" + MdFkHead, FkLines(t.foreignKeys));
    var d := Appended(c + "\n" + "### 索引信息\n" + MdIndexHead, IndexLines(t.indexes));
    d + "\n" + "---\n\n"
  }

  function ConstraintLinesOf(rows: seq<ConstraintRow>): seq<string> {
    GroupedNames(rows);
    ConstraintLines(Grouped(rows))
  }

  const MdColumnHead := "| 字段名 | 数据类型 | 长度 | 允许空 | 默认值 | 描述 |\n|--------|----------|------|--------|--------|------|\n"
  const MdConstraintHead := "| 约束名 | 约束类型 | 约束列 |\n|--------|----------|--------|\n"
  const MdFkHead := "| 外键名 | 外键列 | 参考表 | 参考列 | 匹配方式 | 更新规则 | 删除规则 |\n|--------|--------|--------|--------|----------|----------|----------|\n"
  const MdIndexHead := "| 索引名 | 索引列 | 是否唯一 | 索引类型 | 表空间 |\n|--------|--------|----------|----------|--------|\n"

  const MdTitle := "# 数据库表结构信息\n\n"
  const TxtTitle := "数据库表结构信息\n" + "============================================================" + "\n\n"

  function MdReport(tables: seq<Table>): string {
    if tables == [] then MdTitle else MdSectionAfter(MdReport(tables[..|tables| - 1]), tables[|tables| - 1])
  }

  function TxtReport(tables: seq<Table>): string {
    if tables == [] then TxtTitle else TxtSectionAfter(TxtReport(tables[..|tables| - 1]), tables[|tables| - 1])
  }

  /** Every table's header (its name over a rule of equal length) is in the TXT report. */
  lemma TxtReportHeaders(tables: seq<Table>, i: int)
    requires 0 <= i < |tables|
    ensures Contains(TxtReport(tables), TxtHeader(tables[i].name))
  {
    HeaderInReport(tables, i);
    ContainsAfter(TxtReport(tables[..i]), TxtHeader(tables[i].name), TxtReport(tables), TxtReport(tables));
  }

  /** Later sections only extend the report. */
  lemma {:induction false} HeaderInReport(tables: seq<Table>, i: int)
    requires 0 <= i < |tables|
    ensures TxtReport(tables[..i]) + TxtHeader(tables[i].name) <= TxtReport(tables)
    decreases |tables|
  {
    if i == |tables| - 1 {
      HeaderFollows(tables, i);
      assert tables[..i + 1] == tables;
    } else {
      var init := tables[..|tables| - 1];
      assert init[..i] == tables[..i] && init[i] == tables[i];
      HeaderInReport(init, i);
      AppendedPrefix(TxtReport(init) + TxtHeader(tables[|tables| - 1].name), TxtColumnLines(tables[|tables| - 1].columns));
    }
  }

  /** The section of table `i` opens with its header, right after the sections before it. */
  lemma HeaderFollows(tables: seq<Table>, i: int)
    requires 0 <= i < |tables|
    ensures TxtReport(tables[..i]) + TxtHeader(tables[i].name) <= TxtReport(tables[..i + 1])
  {
    var acc := TxtReport(tables[..i]);
    var h := TxtHeader(tables[i].name);
    TxtReportStep(tables, i);
    AppendedPrefix(acc + h, TxtColumnLines(tables[i].columns));
  }

  lemma ContainsAfter(a: string, h: string, b: string, c: string)
    requires a + h <= b && b <= c
    ensures Contains(c, h)
  {
    assert c[|a|..][..|h|] == (a + h)[|a|..];
    ContainsAt(c, h, |a|);
  }

  // ------------------------------------------------------------------ the report loops

  /** `acc += line` for each line. */
  method AppendLines(acc: string, lines: seq<string>) returns (r: string)
    ensures r == Appended(acc, lines)
  {
    r := acc;
    for i := 0 to |lines|
      invariant r == Appended(acc, lines[..i])
    {
      assert lines[..i + 1][..i] == lines[..i];
      r := r + lines[i];
    }
    assert lines[..|lines|] == lines;
  }

  /** The body of the `for (const table of tables)` loop. */
  method AppendTable(md: string, txt: string, t: Table) returns (md': string, txt': string)
    ensures md' == MdSectionAfter(md, t)
    ensures txt' == TxtSectionAfter(txt, t)
  {
    md' := md + "## " + t.name + " 表\n\n";
    txt' := txt + TxtHeader(t.name);
    md' := md' + "### 字段信息\n" + MdColumnHead;
    // the column forEach writes one line to each report per column
    md' := AppendLines(md', MdColumnLines(t.columns));
    txt' := AppendLines(txt', TxtColumnLines(t.columns));
    txt' := txt' + "\n";
    md' := md' + "\n" + "### 约束信息\n" + MdConstraintHead;
    var g := GroupConstraints(t.constraints);
    GroupedNames(t.constraints);
    md' := AppendLines(md', ConstraintLines(g));
    md' := md' + "\n" + "### 外键关联\n" + MdFkHead;
    md' := AppendLines(md', FkLines(t.foreignKeys));
    md' := md' + "\n" + "### 索引信息\n" + MdIndexHead;
    md' := AppendLines(md', IndexLines(t.indexes));
    md' := md' + "\n" + "---\n\n";
  }

  lemma MdReportStep(tables: seq<Table>, i: int)
    requires 0 <= i < |tables|
    ensures MdReport(tables[..i + 1]) == MdSectionAfter(MdReport(tables[..i]), tables[i])
  {
    assert tables[..i + 1][..i] == tables[..i];
  }

  lemma TxtReportStep(tables: seq<Table>, i: int)
    requires 0 <= i < |tables|
    ensures TxtReport(tables[..i + 1]) == TxtSectionAfter(TxtReport(tables[..i]), tables[i])
  {
    assert tables[..i + 1][..i] == tables[..i];
  }

  /** `run()`: the Markdown and TXT reports for the tables in name order. */
  method Report(tables: seq<Table>) returns (md: string, txt: string)
    ensures md == MdReport(tables)
    ensures txt == TxtReport(tables)
  {
    md := MdTitle;
    txt := TxtTitle;
    for i := 0 to |tables|
      invariant md == MdReport(tables[..i])
      invariant txt == TxtReport(tables[..i])
    {
      MdReportStep(tables, i);
      TxtReportStep(tables, i);
      md, txt := AppendTable(md, txt, tables[i]);
    }
    assert tables[..|tables|] == tables;
  }

  // ------------------------------------------------------------------ JSON structure

  datatype ConstraintJson = ConstraintJson(name: string, ctype: string, columns: seq<string>)
  datatype IndexJson = IndexJson(name: string, columns: string, unique: bool, itype: string)

  datatype TableJson = TableJson(
    columns: map<string, ColumnJson>, constraints: seq<ConstraintJson>,
    foreignKeys: seq<ForeignKey>, indexes: seq<IndexJson>)

  /** `structure[table].columns`, one key per column name, a later column overwriting. */
  function ColumnMap(cols: seq<Column>): map<string, ColumnJson> {
    if cols == [] then map[]
    else ColumnMap(cols[..|cols| - 1])[cols[|cols| - 1].name := ColumnJsonOf(cols[|cols| - 1])]
  }

  lemma {:induction false} ColumnMapKeys(cols: seq<Column>, n: string)
    ensures n in ColumnMap(cols) <==> exists i :: 0 <= i < |cols| && cols[i].name == n
  {
    if cols != [] {
      ColumnMapKeys(cols[..|cols| - 1], n);
      if n != cols[|cols| - 1].name {
        assert forall i :: 0 <= i < |cols| && cols[i].name == n ==> i < |cols| - 1 && cols[..|cols| - 1][i].name == n;
      }
    }
  }

  function ConstraintJsons(g: Grouping): (r: seq<ConstraintJson>)
    requires forall n :: n in g.names ==> n in g.groups
    ensures |r| == |g.names|
    ensures forall i :: 0 <= i < |g.names| ==>
      r[i] == ConstraintJson(g.names[i], g.groups[g.names[i]].ctype, g.groups[g.names[i]].columns)
  {
    seq(|g.names|, i requires 0 <= i < |g.names| =>
      ConstraintJson(g.names[i], g.groups[g.names[i]].ctype, g.groups[g.names[i]].columns))
  }

  function IndexJsonOf(ix: IndexRow): IndexJson {
    IndexJson(ix.name, IndexColumns(ix.def), ix.unique, IndexType(ix.def))
  }

  function TableJsonOf(t: Table): TableJson {
    GroupedNames(t.constraints);
    TableJson(
      ColumnMap(t.columns),
      ConstraintJsons(Grouped(t.constraints)),
      t.foreignKeys,
      seq(|t.indexes|, i requires 0 <= i < |t.indexes| => IndexJsonOf(t.indexes[i])))
  }

  function JsonStructure(tables: seq<Table>): map<string, TableJson> {
    if tables == [] then map[]
    else JsonStructure(tables[..|tables| - 1])[tables[|tables| - 1].name := TableJsonOf(tables[|tables| - 1])]
  }

  /** One key per table; the entry is built from the last table of that name. */
  lemma {:induction false} JsonStructureMeaning(tables: seq<Table>, i: int)
    requires 0 <= i < |tables|
    requires forall j :: i < j < |tables| ==> tables[j].name != tables[i].name
    ensures tables[i].name in JsonStructure(tables)
    ensures JsonStructure(tables)[tables[i].name] == TableJsonOf(tables[i])
  {
    if i < |tables| - 1 {
      var init := tables[..|tables| - 1];
      JsonStructureMeaning(init, i);
    }
  }

  lemma {:induction false} JsonStructureKeys(tables: seq<Table>, n: string)
    ensures n in JsonStructure(tables) <==> exists i :: 0 <= i < |tables| && tables[i].name == n
  {
    if tables != [] {
      JsonStructureKeys(tables[..|tables| - 1], n);
      if n != tables[|tables| - 1].name {
        assert forall i :: 0 <= i < |tables| && tables[i].name == n ==> i < |tables| - 1 && tables[..|tables| - 1][i].name == n;
      }
    }
  }

  /** The column `forEach` of `getJsonStructure`. */
  method FillColumns(cols: seq<Column>) returns (m: map<string, ColumnJson>)
    ensures m == ColumnMap(cols)
  {
    m := map[];
    for i := 0 to |cols|
      invariant m == ColumnMap(cols[..i])
    {
      assert cols[..i + 1][..i] == cols[..i];
      m := m[cols[i].name := ColumnJsonOf(cols[i])];
    }
    assert cols[..|cols|] == cols;
  }

  /** `getJsonStructure`: the same queries (constraints unordered), one entry per table. */
  method GetJsonStructure(tables: seq<Table>) returns (structure: map<string, TableJson>)
    ensures structure == JsonStructure(tables)
  {
    structure := map[];
    for i := 0 to |tables|
      invariant structure == JsonStructure(tables[..i])
    {
      assert tables[..i + 1][..i] == tables[..i];
      var t := tables[i];
      var columns := FillColumns(t.columns);
      var g := GroupConstraints(t.constraints);
      GroupedNames(t.constraints);
      structure := structure[t.name := TableJson(
        columns, ConstraintJsons(g), t.foreignKeys,
        seq(|t.indexes|, k requires 0 <= k < |t.indexes| => IndexJsonOf(t.indexes[k])))];
    }
    assert tables[..|tables|] == tables;
  }
}
