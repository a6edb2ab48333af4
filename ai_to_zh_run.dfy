/**
 * `ai:to-zh`: make sure the `ai-to-zh` cursor row exists, recreate the
 * `cases_info_zh` table, take the case after the cursor from
 * `missing_persons_info`, try up to three models for a Chinese translation
 * of four of its fields, store the translation keyed by the case's id and
 * move the cursor to it.
 *
 * The translation service is a parameter: `translate(fields, modelIndex)`
 * is what `translateToChinese` answered (or that it threw).
 * `GeminiService` as modelled in `gemini_service.dfy` has no such method,
 * so with that service every call is `Threw`.
 */
module AiToZhRun {
  import opened Text
  import opened Json
  import opened Tasks

  const TaskName: string := "ai-to-zh"

  /** How many models the command tries for one case. */
  const MaxModels: nat := 3

  /** A `missing_persons_info` row, as far as the command reads it. */
  datatype CaseInfo = CaseInfo(id: int, caseId: string, race: Json, classification: Json,
                               marks: Json, details: Json)

  function CaseInfoId(c: CaseInfo): int { c.id }

  /** `fieldsToTranslate`. */
  datatype Fields = Fields(race: Json, classification: Json, marks: Json, details: Json)

  /** `v || ''`. */
  function OrEmpty(v: Json): (r: Json)
    ensures Truthy(v) ==> r == v
    ensures !Truthy(v) ==> r == JStr("")
  {
    if Truthy(v) then v else JStr("")
  }

  /** The fields sent for translation: a missing or falsy source field becomes ''. */
  function ToTranslate(c: CaseInfo): (r: Fields)
    ensures Truthy(c.race) ==> r.race == c.race
    ensures Truthy(c.classification) ==> r.classification == c.classification
    ensures Truthy(c.marks) ==> r.marks == c.marks
    ensures Truthy(c.details) ==> r.details == c.details
    ensures forall v :: v in [r.race, r.classification, r.marks, r.details] ==> Truthy(v) || v == JStr("")
  {
    Fields(OrEmpty(c.race), OrEmpty(c.classification), OrEmpty(c.marks), OrEmpty(c.details))
  }

  /** What `translateToChinese` did: threw, resolved to nothing, or resolved to a response object. */
  datatype Reply = Threw | NoResponse | Response(translatedJson: Json, modelName: Json)

  /** `{ translatedFields, modelName }`. */
  datatype Translation = Translation(fields: Json, modelName: Json)

  /**
   * `translateWithAI`: never throws; `null` when the call threw, gave no
   * response or a response whose `translatedJson` is falsy.
   */
  function TranslateWithAI(reply: Reply): (r: Option<Translation>)
    ensures r.Some? <==> reply.Response? && Truthy(reply.translatedJson)
    ensures r.Some? ==> Truthy(r.value.fields) && reply == Response(r.value.fields, r.value.modelName)
  {
    match reply
    case Response(t, m) => if Truthy(t) then Some(Translation(t, m)) else None
    case _ => None
  }

  /**
   * The model-attempt loop from index `k` on: the first model whose call
   * gives a translation, or `None` when models `k` to 2 all fail.
   */
  function FirstTranslation(tr: int -> Reply, k: nat): Option<Translation>
    requires k <= MaxModels
    decreases MaxModels - k
  {
    if k == MaxModels then None
    else
      var here := TranslateWithAI(tr(k));
      if here.Some? then here else FirstTranslation(tr, k + 1)
  }

  /** `None` exactly when every model from `k` on fails; otherwise the reply of the first that does not. */
  lemma {:induction false} FirstTranslationMeaning(tr: int -> Reply, k: nat)
    requires k <= MaxModels
    ensures var r := FirstTranslation(tr, k);
      && (r.None? <==> forall i :: k <= i < MaxModels ==> TranslateWithAI(tr(i)).None?)
      && (r.Some? ==> exists i :: k <= i < MaxModels && TranslateWithAI(tr(i)) == r
                                  && forall j :: k <= j < i ==> TranslateWithAI(tr(j)).None?)
    decreases MaxModels - k
  {
    if k < MaxModels && TranslateWithAI(tr(k)).None? {
      FirstTranslationMeaning(tr, k + 1);
      var r := FirstTranslation(tr, k);
      if r.Some? {
        var i :| k + 1 <= i < MaxModels && TranslateWithAI(tr(i)) == r
                 && forall j :: k + 1 <= j < i ==> TranslateWithAI(tr(j)).None?;
        assert forall j :: k <= j < i ==> TranslateWithAI(tr(j)).None?;
      }
    }
  }

  /**
   * The `for (modelIndex = 0; modelIndex < 3; …)` loop.  `attempts` lists
   * the model indices passed to `translateWithAI`, in call order.
   */
  method TranslateLoop(tr: int -> Reply) returns (result: Option<Translation>, attempts: seq<int>)
    ensures result == FirstTranslation(tr, 0)
    ensures 1 <= |attempts| <= MaxModels
    ensures forall k :: 0 <= k < |attempts| ==> attempts[k] == k
    ensures forall k :: 0 <= k < |attempts| - 1 ==> TranslateWithAI(tr(attempts[k])).None?
    ensures result == TranslateWithAI(tr(attempts[|attempts| - 1]))
    ensures result.None? ==> |attempts| == MaxModels
  {
    result := None;
    attempts := [];
    var modelIndex := 0;
    while modelIndex < MaxModels
      invariant 0 <= modelIndex <= MaxModels
      invariant |attempts| == modelIndex
      invariant forall k :: 0 <= k < |attempts| ==> attempts[k] == k
      invariant forall k :: 0 <= k < |attempts| ==> TranslateWithAI(tr(attempts[k])).None?
      invariant result.None?
      invariant FirstTranslation(tr, 0) == FirstTranslation(tr, modelIndex)
    {
      result := TranslateWithAI(tr(modelIndex));
      attempts := attempts + [modelIndex];
      if result.Some? {
        return;
      }
      modelIndex := modelIndex + 1;
    }
  }

  /** The four keys of `fieldsToTranslate`, in declaration order. */
  const FieldKeys: seq<string> := ["race", "classification", "distinguishing_marks", "disappearance_details"]

  function Original(f: Fields, key: string): Json {
    if key == "race" then f.race
    else if key == "classification" then f.classification
    else if key == "distinguishing_marks" then f.marks
    else f.details
  }

  /**
   * `validateTranslationResult`: the loop looks for a translated field, but
   * its flag is never read, so the answer is only whether `result` is truthy.
   */
  method ValidateTranslationResult(result: Json, original: Fields) returns (ok: bool)
    ensures ok <==> Truthy(result)
  {
    if !Truthy(result) {
      return false;
    }
    var hasTranslation := false;
    var i := 0;
    while i < |FieldKeys|
      invariant 0 <= i <= |FieldKeys|
    {
      var v := Field(result, FieldKeys[i]);
      if Truthy(v) && v != Original(original, FieldKeys[i]) {
        hasTranslation := true;
        break;
      }
      i := i + 1;
    }
    return true;
  }

  /**
   * `o.key`, JNull standing for `undefined` when `o` is not an object
   * holding it; the validation only tests it, and a save with such a key
   * throws before anything is stored.
   */
  function Field(j: Json, key: string): Json {
    match Get(j, key)
    case Some(v) => v
    case None => JNull
  }

  // ------------------------------------------------------------------ cases_info_zh

  /** A `cases_info_zh` row. */
  datatype ZhRow = ZhRow(id: int, caseId: string, caseInfoId: int, race: Json, classification: Json,
                         marks: Json, details: Json, aiModel: Json)

  /** The row's translated columns hold `t`. */
  predicate Holds(row: ZhRow, t: Translation) {
    && row.race == Field(t.fields, "race")
    && row.classification == Field(t.fields, "classification")
    && row.marks == Field(t.fields, "distinguishing_marks")
    && row.details == Field(t.fields, "disappearance_details")
    && row.aiModel == t.modelName
  }

  /** At most one row per `case_info_id`. */
  predicate Keyed(rows: seq<ZhRow>) {
    forall i, j :: 0 <= i < j < |rows| ==> rows[i].caseInfoId != rows[j].caseInfoId
  }

  datatype Table = Table(rows: seq<ZhRow>, nextId: int)

  /** The four keys the save binds are all present: knex refuses an `undefined` binding. */
  predicate Bound(fields: Json) {
    && Get(fields, "race").Some?
    && Get(fields, "classification").Some?
    && Get(fields, "distinguishing_marks").Some?
    && Get(fields, "disappearance_details").Some?
  }

  /** The save throws: a query fails, or the lookup succeeds and the write has an `undefined` binding. */
  predicate SaveThrows(shape: Shape, tr: Translation, fails: bool) {
    fails || (shape != OtherResult && !Bound(tr.fields))
  }

  /** How `saveTranslationResult` ends. */
  datatype SaveResult = Saved(table: Table) | FormatError | SaveThrew

  /**
   * `saveTranslationResult`: a query error is rethrown; a lookup result that
   * is neither an array nor has `rows` is logged and nothing is written; a
   * translation missing one of the four keys makes the UPDATE or INSERT
   * throw on its `undefined` binding; otherwise the rows of the case are
   * updated, or one row is inserted with the next SERIAL id.
   */
  function SaveTranslation(t: Table, shape: Shape, caseId: string, caseInfoId: int, tr: Translation,
                           fails: bool): (r: SaveResult)
    ensures r.SaveThrew? <==> SaveThrows(shape, tr, fails)
    ensures r.FormatError? <==> !fails && shape == OtherResult
    ensures r.Saved? ==>
      && Bound(tr.fields)
      && (exists k :: 0 <= k < |r.table.rows| && r.table.rows[k].caseInfoId == caseInfoId)
      && (forall k :: 0 <= k < |r.table.rows| && r.table.rows[k].caseInfoId == caseInfoId ==> Holds(r.table.rows[k], tr))
      && |t.rows| <= |r.table.rows| <= |t.rows| + 1
      && (forall k :: 0 <= k < |t.rows| && t.rows[k].caseInfoId != caseInfoId ==> r.table.rows[k] == t.rows[k])
      && (Keyed(t.rows) ==> Keyed(r.table.rows))
  {
    if fails then SaveThrew
    else if shape == OtherResult then FormatError
    else if !Bound(tr.fields) then SaveThrew
    else if exists k :: 0 <= k < |t.rows| && t.rows[k].caseInfoId == caseInfoId then
      var w :| 0 <= w < |t.rows| && t.rows[w].caseInfoId == caseInfoId;
      var rows := seq(|t.rows|, k requires 0 <= k < |t.rows| =>
        if t.rows[k].caseInfoId == caseInfoId then Update(t.rows[k], tr) else t.rows[k]);
      assert rows[w].caseInfoId == caseInfoId;
      Saved(Table(rows, t.nextId))
    else
      var row := ZhRow(t.nextId, caseId, caseInfoId, Field(tr.fields, "race"), Field(tr.fields, "classification"),
                       Field(tr.fields, "distinguishing_marks"), Field(tr.fields, "disappearance_details"), tr.modelName);
      assert (t.rows + [row])[|t.rows|] == row;
      Saved(Table(t.rows + [row], t.nextId + 1))
  }

  /** The UPDATE of one row: its translated columns and model, nothing else. */
  function Update(row: ZhRow, tr: Translation): (r: ZhRow)
    ensures Holds(r, tr)
    ensures r.id == row.id && r.caseId == row.caseId && r.caseInfoId == row.caseInfoId
  {
    row.(race := Field(tr.fields, "race"), classification := Field(tr.fields, "classification"),
         marks := Field(tr.fields, "distinguishing_marks"), details := Field(tr.fields, "disappearance_details"),
         aiModel := tr.modelName)
  }

  /** Saving the same translation twice leaves what saving once left. */
  lemma SaveTwiceSame(t: Table, shape: Shape, caseId: string, caseInfoId: int, tr: Translation)
    requires SaveTranslation(t, shape, caseId, caseInfoId, tr, false).Saved?
    ensures var once := SaveTranslation(t, shape, caseId, caseInfoId, tr, false).table;
      SaveTranslation(once, shape, caseId, caseInfoId, tr, false) == Saved(once)
  {
    var once := SaveTranslation(t, shape, caseId, caseInfoId, tr, false).table;
    var k :| 0 <= k < |once.rows| && once.rows[k].caseInfoId == caseInfoId;
    var rows := seq(|once.rows|, i requires 0 <= i < |once.rows| =>
      if once.rows[i].caseInfoId == caseInfoId then Update(once.rows[i], tr) else once.rows[i]);
    assert rows == once.rows;
  }

  // ------------------------------------------------------------------ run

  datatype State = State(progress: map<string, Json>, table: Table)

  /**
   * `initTaskProgress`: `INSERT … ON CONFLICT DO NOTHING` adds the cursor at
   * 0 only when it is missing, then `cases_info_zh` is dropped and created
   * afresh, so its rows are gone and SERIAL starts again at 1.
   */
  function Init(st: State): (r: State)
    ensures TaskName in r.progress
    ensures TaskName in st.progress ==> r.progress == st.progress
    ensures TaskName !in st.progress ==> r.progress == st.progress[TaskName := JNum(0)]
    ensures r.table == Table([], 1)
  {
    State(if TaskName in st.progress then st.progress else st.progress[TaskName := JNum(0)], Table([], 1))
  }

  function ProgressRows(progress: map<string, Json>): seq<Json> {
    if TaskName in progress then [progress[TaskName]] else []
  }

  /** `updateTaskProgress(id)`. */
  function Advance(st: State, id: int): State {
    st.(progress := st.progress[TaskName := JNum(id)])
  }

  /** The translation the model loop finds for a case. */
  function Translated(c: CaseInfo, translate: (Fields, int) -> Reply): Option<Translation> {
    FirstTranslation(i => translate(ToTranslate(c), i), 0)
  }

  /**
   * What the run does with the picked case: no translation, or one that
   * fails validation, moves the cursor; a save that throws leaves it; a
   * save that returns moves it.
   */
  function Handle(st: State, shape: Shape, c: CaseInfo, translate: (Fields, int) -> Reply, saveFails: bool)
    : (r: State)
    ensures Translated(c, translate).None? || !SaveThrows(shape, Translated(c, translate).value, saveFails) ==>
      r.progress == st.progress[TaskName := JNum(c.id)]
    ensures Translated(c, translate).Some? && SaveThrows(shape, Translated(c, translate).value, saveFails) ==> r == st
    ensures forall k :: 0 <= k < |st.table.rows| && st.table.rows[k].caseInfoId != c.id ==>
      k < |r.table.rows| && r.table.rows[k] == st.table.rows[k]
    ensures |r.table.rows| <= |st.table.rows| + 1
    ensures forall k :: |st.table.rows| <= k < |r.table.rows| ==> r.table.rows[k].caseInfoId == c.id
  {
    match Translated(c, translate)
    case None => Advance(st, c.id)
    case Some(tr) =>
      if !Truthy(tr.fields) then Advance(st, c.id)
      else match SaveTranslation(st.table, shape, c.caseId, c.id, tr, saveFails)
        case SaveThrew => st
        case FormatError => Advance(st, c.id)
        case Saved(t) => Advance(st.(table := t), c.id)
  }

  /**
   * One run.  The table is always recreated; with a format error or no case
   * after the cursor nothing else happens; otherwise exactly the case with
   * the smallest id above `last_id` is handled, so afterwards the table
   * holds at most one row, that case's.
   */
  function Run(st: State, shape: Shape, cases: seq<CaseInfo>, translate: (Fields, int) -> Reply,
               saveFails: bool): (r: State)
    ensures TaskName in r.progress
    ensures shape == OtherResult ==> r == Init(st)
    ensures shape != OtherResult ==>
      var init := Init(st);
      var last := LastId(init.progress[TaskName]);
      match NextRow(cases, CaseInfoId, last)
      case None => r == init
      case Some(j) =>
        && cases[j].id > last
        && (Translated(cases[j], translate).Some? && SaveThrows(shape, Translated(cases[j], translate).value, saveFails) ==>
              r == init)
        && (Translated(cases[j], translate).None? || !SaveThrows(shape, Translated(cases[j], translate).value, saveFails) ==>
              r.progress == init.progress[TaskName := JNum(cases[j].id)])
        && |r.table.rows| <= 1
        && (forall k :: 0 <= k < |r.table.rows| ==> r.table.rows[k].caseInfoId == cases[j].id)
  {
    var init := Init(st);
    match FirstRow(shape, ProgressRows(init.progress))
    case None => init
    case Some(None) => init
    case Some(Some(lastValue)) =>
      match NextRow(cases, CaseInfoId, LastId(lastValue))
      case None => init
      case Some(j) => Handle(init, shape, cases[j], translate, saveFails)
  }

  /** Whatever the run does, a cursor that holds a number never moves back. */
  lemma RunCursorForward(st: State, shape: Shape, cases: seq<CaseInfo>, translate: (Fields, int) -> Reply,
                         saveFails: bool, n: int)
    requires TaskName in st.progress && st.progress[TaskName] == JNum(n)
    ensures var r := Run(st, shape, cases, translate, saveFails);
      r.progress[TaskName].JNum? && r.progress[TaskName].n >= n
  {
  }

  /** `{"race": "白人"}` without the other three keys: the write throws on its `undefined` bindings. */
  lemma RaceOnlyThrows(t: Table, shape: Shape, caseId: string, caseInfoId: int, model: Json)
    requires shape != OtherResult
    ensures SaveTranslation(t, shape, caseId, caseInfoId,
      Translation(JObj(map["race" := JStr("白人")]), model), false) == SaveThrew
  {
    assert "classification" != "race";
  }

  /** A translation missing one of the four keys makes the next run pick the same case again. */
  lemma UnboundSaveRetries(st: State, shape: Shape, cases: seq<CaseInfo>, translate: (Fields, int) -> Reply,
                           saveFails: bool)
    requires shape != OtherResult
    requires NextRow(cases, CaseInfoId, LastId(Init(st).progress[TaskName])).Some?
    requires var c := cases[NextRow(cases, CaseInfoId, LastId(Init(st).progress[TaskName])).value];
      Translated(c, translate).Some? && !Bound(Translated(c, translate).value.fields)
    ensures var r := Run(st, shape, cases, translate, saveFails);
      NextRow(cases, CaseInfoId, LastId(r.progress[TaskName]))
        == NextRow(cases, CaseInfoId, LastId(Init(st).progress[TaskName]))
  {
  }

  /** A save that throws makes the next run pick the same case again. */
  lemma FailedSaveRetries(st: State, shape: Shape, cases: seq<CaseInfo>, translate: (Fields, int) -> Reply)
    requires shape != OtherResult
    requires NextRow(cases, CaseInfoId, LastId(Init(st).progress[TaskName])).Some?
    requires Translated(cases[NextRow(cases, CaseInfoId, LastId(Init(st).progress[TaskName])).value], translate).Some?
    ensures var r := Run(st, shape, cases, translate, true);
      NextRow(cases, CaseInfoId, LastId(r.progress[TaskName]))
        == NextRow(cases, CaseInfoId, LastId(Init(st).progress[TaskName]))
  {
  }

  // ------------------------------------------------------------------ the command, imperatively

  class ZhStore {
    var progress: map<string, Json>
    var table: Table
    const shape: Shape

    constructor (progress0: map<string, Json>, table0: Table, shape0: Shape)
      ensures progress == progress0 && table == table0 && shape == shape0
    {
      progress := progress0;
      table := table0;
      shape := shape0;
    }

    /** `initTaskProgress`. */
    method InitTaskProgress()
      modifies this
      ensures State(progress, table) == Init(old(State(progress, table)))
    {
      if TaskName !in progress {
        progress := progress[TaskName := JNum(0)];
      }
      table := Table([], 1);
    }

    /** `saveTranslationResult`; `threw` is whether it rethrew. */
    method SaveTranslationResult(caseId: string, caseInfoId: int, tr: Translation, fails: bool)
      returns (threw: bool)
      modifies this
      ensures var r := SaveTranslation(old(table), shape, caseId, caseInfoId, tr, fails);
        && threw == r.SaveThrew?
        && table == (if r.Saved? then r.table else old(table))
      ensures progress == old(progress)
    {
      if fails {
        return true;
      }
      threw := false;
      if shape == OtherResult {
        return;
      }
      var rows := table.rows;
      var found := false;
      var i := 0;
      while i < |rows|
        invariant 0 <= i <= |rows|
        invariant found <==> exists k :: 0 <= k < i && rows[k].caseInfoId == caseInfoId
      {
        if rows[i].caseInfoId == caseInfoId {
          found := true;
        }
        i := i + 1;
      }
      if !Bound(tr.fields) {
        return true;
      }
      if found {
        table := table.(rows := seq(|rows|, k requires 0 <= k < |rows| =>
          if rows[k].caseInfoId == caseInfoId then Update(rows[k], tr) else rows[k]));
      } else {
        var row := ZhRow(table.nextId, caseId, caseInfoId, Field(tr.fields, "race"),
                         Field(tr.fields, "classification"), Field(tr.fields, "distinguishing_marks"),
                         Field(tr.fields, "disappearance_details"), tr.modelName);
        table := Table(rows + [row], table.nextId + 1);
      }
    }

    /** What the run does with the picked case. */
    method HandleCase(c: CaseInfo, translate: (Fields, int) -> Reply, saveFails: bool)
      modifies this
      ensures State(progress, table) == Handle(old(State(progress, table)), shape, c, translate, saveFails)
    {
      var fields := ToTranslate(c);
      var result, _ := TranslateLoop(i => translate(fields, i));
      if result.None? {
        progress := progress[TaskName := JNum(c.id)];
        return;
      }
      var ok := ValidateTranslationResult(result.value.fields, fields);
      if !ok {
        // a translation is always truthy, so this skip cannot be reached
        assert false;
      }
      var threw := SaveTranslationResult(c.caseId, c.id, result.value, saveFails);
      if threw {
        return;
      }
      progress := progress[TaskName := JNum(c.id)];
    }

    /** `run()`. */
    method RunOnce(cases: seq<CaseInfo>, translate: (Fields, int) -> Reply, saveFails: bool)
      modifies this
      ensures State(progress, table) == Run(old(State(progress, table)), shape, cases, translate, saveFails)
    {
      InitTaskProgress();
      var found := FirstRow(shape, ProgressRows(progress));
      if found.None? || found.value.None? {
        return;
      }
      var next := NextRow(cases, CaseInfoId, LastId(found.value.value));
      if next.None? {
        return;
      }
      HandleCase(cases[next.value], translate, saveFails);
    }
  }
}
