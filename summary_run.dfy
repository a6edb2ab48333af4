/**
 * `gemini:summary`: one run takes the case after the `ai-summary` cursor,
 * asks the model chain for zh/en/es summaries of its cleaned HTML, stores
 * them in `case_summaries` and moves the cursor to that case whatever the
 * outcome.  Tables are fields of `SummaryStore`; the model reply for a given
 * prompt text and model index is the oracle `reply`, and `fails(i)` says
 * whether storing the i-th summary hit a database error.
 */
module SummaryRun {
  import opened Text
  import opened Json
  import opened Tasks
  import G = GeminiService

  const TaskName: string := "ai-summary"
  const ValidLanguages: seq<string> := ["zh", "en", "es"]

  /** The columns of `missing_persons_cases` the command reads; an empty `caseId` stands for a missing one. */
  datatype CaseRow = CaseRow(id: int, caseId: string, caseHtml: Option<string>)

  datatype SummaryRow = SummaryRow(caseId: string, lang: string, summary: string, aiModel: string)

  function CaseId(c: CaseRow): int { c.id }

  predicate SameKey(r: SummaryRow, caseId: string, lang: string) { r.caseId == caseId && r.lang == lang }

  /** The entry is written at all: non-empty lang and content, a known lang, no database error. */
  predicate Writes(s: G.Summary, failed: bool) {
    s.lang != [] && s.summary != [] && s.lang in ValidLanguages && !failed
  }

  /**
   * One loop step of `saveSummaries`: update every row of (case, lang) when
   * the lookup's `rows` shows one, otherwise insert.  Only a driver that
   * answers with `rows` can ever see an existing row.
   */
  function SaveOne(rows: seq<SummaryRow>, shape: Shape, caseId: string, s: G.Summary, model: string, failed: bool)
    : (r: seq<SummaryRow>)
    ensures !Writes(s, failed) ==> r == rows
    ensures Writes(s, failed) && shape != RowsResult ==> r == rows + [SummaryRow(caseId, s.lang, s.summary, model)]
    ensures |r| >= |rows|
    ensures forall k :: 0 <= k < |rows| && !SameKey(rows[k], caseId, s.lang) ==> r[k] == rows[k]
    ensures forall k :: |rows| <= k < |r| ==> r[k] == SummaryRow(caseId, s.lang, s.summary, model)
    ensures Writes(s, failed) && shape == RowsResult ==>
      forall k :: 0 <= k < |r| && SameKey(r[k], caseId, s.lang) ==> r[k] == SummaryRow(caseId, s.lang, s.summary, model)
    ensures Writes(s, failed) ==> exists k :: 0 <= k < |r| && r[k] == SummaryRow(caseId, s.lang, s.summary, model)
  {
    if !Writes(s, failed) then rows
    else if shape == RowsResult && exists k :: 0 <= k < |rows| && SameKey(rows[k], caseId, s.lang) then
      var updated := seq(|rows|, k requires 0 <= k < |rows| =>
        if SameKey(rows[k], caseId, s.lang) then SummaryRow(caseId, s.lang, s.summary, model) else rows[k]);
      UpdatedHolds(rows, updated, caseId, s.lang, SummaryRow(caseId, s.lang, s.summary, model));
      updated
    else
      var inserted := rows + [SummaryRow(caseId, s.lang, s.summary, model)];
      assert inserted[|rows|] == SummaryRow(caseId, s.lang, s.summary, model);
      inserted
  }

  /** An update of every row of (case, lang), when there is one, leaves the new row in the table. */
  lemma UpdatedHolds(rows: seq<SummaryRow>, updated: seq<SummaryRow>, caseId: string, lang: string, row: SummaryRow)
    requires |updated| == |rows|
    requires forall k :: 0 <= k < |rows| ==> updated[k] == if SameKey(rows[k], caseId, lang) then row else rows[k]
    requires exists k :: 0 <= k < |rows| && SameKey(rows[k], caseId, lang)
    ensures exists k :: 0 <= k < |updated| && updated[k] == row
  {
    var j :| 0 <= j < |rows| && SameKey(rows[j], caseId, lang);
    assert updated[j] == row;
  }

  /** The whole loop over `items`, one step per entry in order. */
  function SaveAll(rows: seq<SummaryRow>, shape: Shape, caseId: string, items: seq<G.Summary>, model: string,
                   fails: int -> bool): seq<SummaryRow>
  {
    if items == [] then rows
    else
      var n := |items| - 1;
      SaveOne(SaveAll(rows, shape, caseId, items[..n], model, fails), shape, caseId, items[n], model, fails(n))
  }

  /** `saveSummaries`: nothing for an empty case id or list. */
  function SaveSummaries(rows: seq<SummaryRow>, shape: Shape, caseId: string, items: seq<G.Summary>, model: string,
                         fails: int -> bool): seq<SummaryRow>
  {
    if caseId == [] || items == [] then rows else SaveAll(rows, shape, caseId, items, model, fails)
  }

  /** Rows of other cases keep their place and value; every added row belongs to the case. */
  predicate OnlyCase(before: seq<SummaryRow>, after: seq<SummaryRow>, caseId: string) {
    && |after| >= |before|
    && (forall k :: 0 <= k < |before| && before[k].caseId != caseId ==> after[k] == before[k])
    && (forall k :: |before| <= k < |after| ==> after[k].caseId == caseId)
  }

  lemma {:induction false} SaveAllOnlyCase(rows: seq<SummaryRow>, shape: Shape, caseId: string,
                                           items: seq<G.Summary>, model: string, fails: int -> bool)
    ensures OnlyCase(rows, SaveAll(rows, shape, caseId, items, model, fails), caseId)
  {
    if items != [] {
      var n := |items| - 1;
      SaveAllOnlyCase(rows, shape, caseId, items[..n], model, fails);
    }
  }

  /** At most one row per (case, lang). */
  predicate Unique(rows: seq<SummaryRow>) {
    forall i, j :: 0 <= i < j < |rows| ==> !(rows[i].caseId == rows[j].caseId && rows[i].lang == rows[j].lang)
  }

  lemma SaveOneUnique(rows: seq<SummaryRow>, caseId: string, s: G.Summary, model: string, failed: bool)
    requires Unique(rows)
    ensures Unique(SaveOne(rows, RowsResult, caseId, s, model, failed))
  {
    var r := SaveOne(rows, RowsResult, caseId, s, model, failed);
    if Writes(s, failed) && |r| == |rows| {
      forall i, j | 0 <= i < j < |r| ensures !(r[i].caseId == r[j].caseId && r[i].lang == r[j].lang) {
        assert SameKey(r[i], caseId, s.lang) <==> SameKey(rows[i], caseId, s.lang);
        assert SameKey(r[j], caseId, s.lang) <==> SameKey(rows[j], caseId, s.lang);
      }
    }
  }

  /**
   * With a driver that answers with `rows`, saving never creates a second
   * row for a (case, lang) pair: the second save of a language overwrites
   * the first.
   */
  lemma {:induction false} SaveAllUnique(rows: seq<SummaryRow>, caseId: string, items: seq<G.Summary>,
                                         model: string, fails: int -> bool)
    requires Unique(rows)
    ensures Unique(SaveAll(rows, RowsResult, caseId, items, model, fails))
  {
    if items != [] {
      var n := |items| - 1;
      SaveAllUnique(rows, caseId, items[..n], model, fails);
      SaveOneUnique(SaveAll(rows, RowsResult, caseId, items[..n], model, fails), caseId, items[n], model, fails(n));
    }
  }

  /** How many entries are written. */
  function Written(items: seq<G.Summary>, fails: int -> bool): nat {
    if items == [] then 0
    else Written(items[..|items| - 1], fails) + (if Writes(items[|items| - 1], fails(|items| - 1)) then 1 else 0)
  }

  /** A driver without `rows` never sees the existing row, so every written entry is a new row. */
  lemma {:induction false} SaveAllWithoutRowsInserts(rows: seq<SummaryRow>, shape: Shape, caseId: string,
                                                     items: seq<G.Summary>, model: string, fails: int -> bool)
    requires shape != RowsResult
    ensures |SaveAll(rows, shape, caseId, items, model, fails)| == |rows| + Written(items, fails)
  {
    if items != [] {
      SaveAllWithoutRowsInserts(rows, shape, caseId, items[..|items| - 1], model, fails);
    }
  }

  // ------------------------------------------------------------------ run

  datatype State = State(progress: map<string, Json>, summaries: seq<SummaryRow>)

  /** The `ai-summary` row as the progress query sees it. */
  function ProgressRows(progress: map<string, Json>): seq<Json> {
    if TaskName in progress then [progress[TaskName]] else []
  }

  /** `updateTaskProgress(id)`. */
  function Advance(st: State, id: int): State {
    st.(progress := st.progress[TaskName := JNum(id)])
  }

  /** What happens to the picked case: skipped without HTML, skipped when generation failed, else saved. */
  function Handle(st: State, shape: Shape, c: CaseRow, reply: (string, int) -> G.Outcome,
                  parse: string -> Option<Json>, fails: int -> bool): (r: State)
    ensures r.progress == st.progress[TaskName := JNum(c.id)]
    ensures OnlyCase(st.summaries, r.summaries, c.caseId)
  {
    if c.caseHtml.None? || c.caseHtml.value == [] then Advance(st, c.id)
    else
      var details := CleanHtml(c.caseHtml.value);
      var gen := G.GenerateSummaries(i => reply(details, i), parse, 0);
      if gen.value.None? || gen.modelName.None? then Advance(st, c.id)
      else
        var saved := SaveSummaries(st.summaries, shape, c.caseId, gen.value.value, gen.modelName.value, fails);
        SaveAllOnlyCase(st.summaries, shape, c.caseId, gen.value.value, gen.modelName.value, fails);
        Advance(st.(summaries := saved), c.id)
  }

  /**
   * One run of the command.  A missing progress row, a format error or no
   * case after the cursor leaves everything as it was; otherwise exactly the
   * case with the smallest id above `last_id` is handled, only its summary
   * rows change, and the cursor moves to its id.
   */
  function Run(st: State, shape: Shape, cases: seq<CaseRow>, reply: (string, int) -> G.Outcome,
               parse: string -> Option<Json>, fails: int -> bool): (r: State)
    ensures TaskName !in st.progress || shape == OtherResult ==> r == st
    ensures TaskName in st.progress && shape != OtherResult ==>
      var last := LastId(st.progress[TaskName]);
      match NextRow(cases, CaseId, last)
      case None => r == st
      case Some(j) =>
        && cases[j].id > last
        && r.progress == st.progress[TaskName := JNum(cases[j].id)]
        && OnlyCase(st.summaries, r.summaries, cases[j].caseId)
  {
    match FirstRow(shape, ProgressRows(st.progress))
    case None => st
    case Some(None) => st
    case Some(Some(lastValue)) =>
      var last := LastId(lastValue);
      match NextRow(cases, CaseId, last)
      case None => st
      case Some(j) =>
        Handle(st, shape, cases[j], reply, parse, fails)
  }

  /** The cursor only moves forward when it holds a number. */
  lemma RunCursorForward(st: State, shape: Shape, cases: seq<CaseRow>, reply: (string, int) -> G.Outcome,
                         parse: string -> Option<Json>, fails: int -> bool, n: int)
    requires TaskName in st.progress && st.progress[TaskName] == JNum(n)
    ensures var r := Run(st, shape, cases, reply, parse, fails);
      TaskName in r.progress && r.progress[TaskName].JNum? && r.progress[TaskName].n >= n
  {
  }

  // ------------------------------------------------------------------ the command, imperatively

  class SummaryStore {
    var progress: map<string, Json>
    var summaries: seq<SummaryRow>
    const shape: Shape

    constructor (progress0: map<string, Json>, summaries0: seq<SummaryRow>, shape0: Shape)
      ensures progress == progress0 && summaries == summaries0 && shape == shape0
    {
      progress := progress0;
      summaries := summaries0;
      shape := shape0;
    }

    /** The `saveSummaries` loop. */
    method SaveSummariesLoop(caseId: string, items: seq<G.Summary>, model: string, fails: int -> bool)
      modifies this
      ensures summaries == SaveSummaries(old(summaries), shape, caseId, items, model, fails)
      ensures progress == old(progress)
    {
      if caseId == [] || items == [] {
        return;
      }
      var i := 0;
      while i < |items|
        invariant 0 <= i <= |items|
        invariant summaries == SaveAll(old(summaries), shape, caseId, items[..i], model, fails)
        invariant progress == old(progress)
      {
        var s := items[i];
        assert items[..i + 1][..i] == items[..i];
        var cur := summaries;
        if Writes(s, fails(i)) {
          var row := SummaryRow(caseId, s.lang, s.summary, model);
          if shape == RowsResult && exists k :: 0 <= k < |cur| && SameKey(cur[k], caseId, s.lang) {
            summaries := seq(|cur|, k requires 0 <= k < |cur| => if SameKey(cur[k], caseId, s.lang) then row else cur[k]);
          } else {
            summaries := cur + [row];
          }
        }
        assert summaries == SaveOne(cur, shape, caseId, s, model, fails(i));
        i := i + 1;
      }
      assert items[..|items|] == items;
    }

    /** `run()`. */
    method RunOnce(cases: seq<CaseRow>, reply: (string, int) -> G.Outcome, parse: string -> Option<Json>,
                   fails: int -> bool)
      modifies this
      ensures State(progress, summaries) == Run(old(State(progress, summaries)), shape, cases, reply, parse, fails)
    {
      ghost var st := State(progress, summaries);
      var found := FirstRow(shape, ProgressRows(progress));
      if found.None? || found.value.None? {
        assert Run(st, shape, cases, reply, parse, fails) == st;
        return;
      }
      var last := LastId(found.value.value);
      var next := NextRow(cases, CaseId, last);
      if next.None? {
        assert Run(st, shape, cases, reply, parse, fails) == st;
        return;
      }
      var c := cases[next.value];
      assert Run(st, shape, cases, reply, parse, fails) == Handle(st, shape, c, reply, parse, fails);
      if c.caseHtml.Some? && c.caseHtml.value != [] {
        var details := CleanHtml(c.caseHtml.value);
        var gen := G.GenerateSummaries(i => reply(details, i), parse, 0);
        if gen.value.Some? && gen.modelName.Some? {
          SaveSummariesLoop(c.caseId, gen.value.value, gen.modelName.value, fails);
        }
      }
      progress := progress[TaskName := JNum(c.id)];
    }
  }
}
