/**
 * `gemini:tags`: make sure the `ai-tags` cursor row exists, take the case
 * after it, ask the model chain for tags, store each acceptable tag once in
 * `missing_persons_tags` (keyed by slug) and link it to the case in
 * `missing_persons_tag_relations`, then move the cursor to that case.
 * `linkFails(i)` says whether linking the i-th tag hit a database error.
 */
module TagsRun {
  import opened Text
  import opened Json
  import opened Tasks
  import G = GeminiService
  import LV = LanguageValidator

  const TaskName: string := "ai-tags"

  datatype CaseRow = CaseRow(id: int, caseId: string, caseHtml: Option<string>)

  function CaseId(c: CaseRow): int { c.id }

  /** A `missing_persons_tags` row; the table is keyed by its unique slug. */
  datatype TagRow = TagRow(id: int, name: string, nameZh: string, nameEs: string, aiModel: string)

  /**
   * The tables `saveTags` touches: tags by slug, the (case_id, tag_id)
   * relation under its unique index, and the next autoincrement id.
   */
  datatype Tables = Tables(tags: map<string, TagRow>, relations: set<(string, int)>, nextId: int)

  /** Tag ids are positive, distinct and below the autoincrement counter. */
  predicate Valid(t: Tables) {
    && t.nextId >= 1
    && (forall s :: s in t.tags ==> 1 <= t.tags[s].id < t.nextId)
    && (forall s1, s2 :: s1 in t.tags && s2 in t.tags && s1 != s2 ==> t.tags[s1].id != t.tags[s2].id)
  }

  /**
   * The checks a tag passes before anything is written: all four fields
   * truthy, `zh` a string (its `trim()` would throw otherwise), and
   * `validateTagLanguages` on the fields' texts.
   */
  predicate Acceptable(t: G.TagFields) {
    && Truthy(t.slug) && Truthy(t.en) && Truthy(t.zh) && Truthy(t.es)
    && t.zh.JStr?
    && LV.ValidateTagLanguages(LV.Tag(JsToString(t.slug), JsToString(t.en), t.zh.s, JsToString(t.es))).isValid
  }

  /**
   * One loop step.  With a driver whose lookup answers neither as an array
   * nor with `rows`, the lookup result object itself is taken for the row,
   * its `id` is undefined and the NOT NULL relation insert fails, so nothing
   * is written.  Otherwise an existing slug reuses its id, a new slug gets a
   * row with the next id, and the link is added unless it fails.
   */
  function SaveStep(t: Tables, shape: Shape, caseId: string, tag: G.TagFields, model: string, linkFails: bool)
    : (r: (Tables, Option<Json>))
    ensures Valid(t) ==> Valid(r.0)
    ensures forall s :: s in t.tags ==> s in r.0.tags && r.0.tags[s] == t.tags[s]
    ensures t.relations <= r.0.relations
    ensures forall p :: p in r.0.relations - t.relations ==> p.0 == caseId
    ensures r.1.Some? ==> (r.1.value == tag.slug && Acceptable(tag)
      && JsToString(tag.slug) in r.0.tags && (caseId, r.0.tags[JsToString(tag.slug)].id) in r.0.relations)
    ensures !Acceptable(tag) || shape == OtherResult ==> r == (t, None)
    ensures Acceptable(tag) && shape != OtherResult && !linkFails ==> r.1 == Some(tag.slug)
    ensures JsToString(tag.slug) in t.tags ==> r.0.tags == t.tags && r.0.nextId == t.nextId
  {
    if !Acceptable(tag) || shape == OtherResult then (t, None)
    else
      var key := JsToString(tag.slug);
      var t1 :=
        if key in t.tags then t
        else t.(tags := t.tags[key := TagRow(t.nextId, JsToString(tag.en), tag.zh.s, JsToString(tag.es), model)],
                nextId := t.nextId + 1);
      if linkFails then (t1, None)
      else (t1.(relations := t1.relations + {(caseId, t1.tags[key].id)}), Some(tag.slug))
  }

  /** The loop over `tags`, in order: the tables afterwards and `savedTags`. */
  function SaveAll(t: Tables, shape: Shape, caseId: string, tags: seq<G.TagFields>, model: string,
                   linkFails: int -> bool): (r: (Tables, seq<Json>))
    ensures Valid(t) ==> Valid(r.0)
    ensures forall s :: s in t.tags ==> s in r.0.tags && r.0.tags[s] == t.tags[s]
    ensures t.relations <= r.0.relations
    ensures forall p :: p in r.0.relations - t.relations ==> p.0 == caseId
    ensures |r.1| <= |tags|
  {
    if tags == [] then (t, [])
    else
      var n := |tags| - 1;
      var prev := SaveAll(t, shape, caseId, tags[..n], model, linkFails);
      var step := SaveStep(prev.0, shape, caseId, tags[n], model, linkFails(n));
      (step.0, prev.1 + (if step.1.Some? then [step.1.value] else []))
  }

  /** Every slug in `savedTags` is stored and linked to the case when the loop ends. */
  lemma {:induction false} SavedAreStoredAndLinked(t: Tables, shape: Shape, caseId: string, tags: seq<G.TagFields>,
                                                   model: string, linkFails: int -> bool)
    ensures var r := SaveAll(t, shape, caseId, tags, model, linkFails);
      forall s :: s in r.1 ==> JsToString(s) in r.0.tags && (caseId, r.0.tags[JsToString(s)].id) in r.0.relations
  {
    if tags != [] {
      var n := |tags| - 1;
      SavedAreStoredAndLinked(t, shape, caseId, tags[..n], model, linkFails);
    }
  }

  /** The slugs of the acceptable tags, in input order. */
  function AcceptableSlugs(tags: seq<G.TagFields>): seq<Json> {
    if tags == [] then []
    else
      var n := |tags| - 1;
      AcceptableSlugs(tags[..n]) + (if Acceptable(tags[n]) then [tags[n].slug] else [])
  }

  /** `savedTags` only ever holds slugs of acceptable input tags. */
  lemma {:induction false} SavedFromInput(t: Tables, shape: Shape, caseId: string, tags: seq<G.TagFields>,
                                          model: string, linkFails: int -> bool)
    ensures forall s :: s in SaveAll(t, shape, caseId, tags, model, linkFails).1 ==> s in AcceptableSlugs(tags)
  {
    if tags != [] {
      var n := |tags| - 1;
      SavedFromInput(t, shape, caseId, tags[..n], model, linkFails);
    }
  }

  /**
   * When every link succeeds, `savedTags` is exactly the acceptable tags'
   * slugs in input order, repeats included.
   */
  lemma {:induction false} SavedExactly(t: Tables, shape: Shape, caseId: string, tags: seq<G.TagFields>,
                                        model: string, linkFails: int -> bool)
    requires shape != OtherResult
    requires forall i :: 0 <= i < |tags| ==> !linkFails(i)
    ensures SaveAll(t, shape, caseId, tags, model, linkFails).1 == AcceptableSlugs(tags)
  {
    if tags != [] {
      var n := |tags| - 1;
      SavedExactly(t, shape, caseId, tags[..n], model, linkFails);
    }
  }

  /** Every acceptable tag of `tags` is in the tables and linked to the case. */
  predicate Covers(t: Tables, caseId: string, tags: seq<G.TagFields>) {
    forall i :: 0 <= i < |tags| && Acceptable(tags[i]) ==>
      JsToString(tags[i].slug) in t.tags && (caseId, t.tags[JsToString(tags[i].slug)].id) in t.relations
  }

  /** Saving tags the tables already hold and link changes nothing. */
  lemma {:induction false} SaveAllCovered(t: Tables, shape: Shape, caseId: string, tags: seq<G.TagFields>,
                                          model: string, linkFails: int -> bool)
    requires Covers(t, caseId, tags)
    ensures SaveAll(t, shape, caseId, tags, model, linkFails).0 == t
  {
    if tags != [] {
      var n := |tags| - 1;
      assert Covers(t, caseId, tags[..n]) by {
        assert forall i :: 0 <= i < n ==> tags[..n][i] == tags[i];
      }
      SaveAllCovered(t, shape, caseId, tags[..n], model, linkFails);
      StepCovered(t, shape, caseId, tags[n], model, linkFails(n));
    }
  }

  lemma StepCovered(t: Tables, shape: Shape, caseId: string, tag: G.TagFields, model: string, linkFails: bool)
    requires Acceptable(tag) ==> JsToString(tag.slug) in t.tags && (caseId, t.tags[JsToString(tag.slug)].id) in t.relations
    ensures SaveStep(t, shape, caseId, tag, model, linkFails).0 == t
  {
    if Acceptable(tag) && shape != OtherResult {
      var key := JsToString(tag.slug);
      assert t.relations + {(caseId, t.tags[key].id)} == t.relations;
    }
  }

  /** Without link failures, one pass stores and links every acceptable tag. */
  lemma {:induction false} SaveAllCovers(t: Tables, shape: Shape, caseId: string, tags: seq<G.TagFields>,
                                         model: string, linkFails: int -> bool)
    requires shape != OtherResult
    requires forall i :: 0 <= i < |tags| ==> !linkFails(i)
    ensures Covers(SaveAll(t, shape, caseId, tags, model, linkFails).0, caseId, tags)
  {
    if tags != [] {
      var n := |tags| - 1;
      SaveAllCovers(t, shape, caseId, tags[..n], model, linkFails);
      var prev := SaveAll(t, shape, caseId, tags[..n], model, linkFails).0;
      var r := SaveAll(t, shape, caseId, tags, model, linkFails).0;
      assert r == SaveStep(prev, shape, caseId, tags[n], model, false).0;
      forall i | 0 <= i < |tags| && Acceptable(tags[i])
        ensures JsToString(tags[i].slug) in r.tags && (caseId, r.tags[JsToString(tags[i].slug)].id) in r.relations
      {
        if i < n { assert tags[..n][i] == tags[i]; }
      }
    }
  }

  /**
   * Linking is idempotent: when no link fails, saving the same tags for the
   * same case a second time leaves every table as the first pass left it.
   */
  lemma SaveTwiceSame(t: Tables, shape: Shape, caseId: string, tags: seq<G.TagFields>, model: string,
                      linkFails: int -> bool)
    requires forall i :: 0 <= i < |tags| ==> !linkFails(i)
    ensures var once := SaveAll(t, shape, caseId, tags, model, linkFails).0;
      SaveAll(once, shape, caseId, tags, model, linkFails).0 == once
  {
    var once := SaveAll(t, shape, caseId, tags, model, linkFails).0;
    if shape == OtherResult {
      NothingWithoutRows(t, caseId, tags, model, linkFails);
      NothingWithoutRows(once, caseId, tags, model, linkFails);
    } else {
      SaveAllCovers(t, shape, caseId, tags, model, linkFails);
      SaveAllCovered(once, shape, caseId, tags, model, linkFails);
    }
  }

  lemma {:induction false} NothingWithoutRows(t: Tables, caseId: string, tags: seq<G.TagFields>, model: string,
                                              linkFails: int -> bool)
    ensures SaveAll(t, OtherResult, caseId, tags, model, linkFails) == (t, [])
  {
    if tags != [] {
      NothingWithoutRows(t, caseId, tags[..|tags| - 1], model, linkFails);
    }
  }

  /** `saveTags`: nothing for an empty case id or an empty list. */
  function SaveTags(t: Tables, shape: Shape, caseId: string, tags: seq<G.TagFields>, model: string,
                    linkFails: int -> bool): (Tables, seq<Json>)
  {
    if caseId == [] || tags == [] then (t, []) else SaveAll(t, shape, caseId, tags, model, linkFails)
  }

  // ------------------------------------------------------------------ run

  datatype State = State(progress: map<string, Json>, tables: Tables)

  /**
   * `initTaskProgress`: insert ('ai-tags', 0) when the lookup finds no row.
   * A driver answering in another shape hands back the result object, which
   * is taken for an existing row.
   */
  function InitProgress(progress: map<string, Json>, shape: Shape): (r: map<string, Json>)
    ensures TaskName in progress || shape == OtherResult ==> r == progress
    ensures TaskName !in progress && shape != OtherResult ==> r == progress[TaskName := JNum(0)]
  {
    if shape != OtherResult && TaskName !in progress then progress[TaskName := JNum(0)] else progress
  }

  function ProgressRows(progress: map<string, Json>): seq<Json> {
    if TaskName in progress then [progress[TaskName]] else []
  }

  function Advance(st: State, id: int): State {
    st.(progress := st.progress[TaskName := JNum(id)])
  }

  function Handle(st: State, shape: Shape, c: CaseRow, reply: (string, int) -> G.Outcome,
                  parse: string -> Option<Json>, linkFails: int -> bool): (r: State)
    ensures r.progress == st.progress[TaskName := JNum(c.id)]
    ensures forall s :: s in st.tables.tags ==> s in r.tables.tags && r.tables.tags[s] == st.tables.tags[s]
    ensures st.tables.relations <= r.tables.relations
    ensures forall p :: p in r.tables.relations - st.tables.relations ==> p.0 == c.caseId
    ensures Valid(st.tables) ==> Valid(r.tables)
  {
    if c.caseHtml.None? || c.caseHtml.value == [] then Advance(st, c.id)
    else
      var details := CleanHtml(c.caseHtml.value);
      var gen := G.GenerateTags(i => reply(details, i), parse, 0);
      if gen.value.None? || gen.modelName.None? then Advance(st, c.id)
      else
        var saved := SaveTags(st.tables, shape, c.caseId, gen.value.value, gen.modelName.value, linkFails);
        Advance(st.(tables := saved.0), c.id)
  }

  /**
   * One run.  After the cursor row is ensured, a format error or no case
   * after the cursor changes nothing more; otherwise the case with the
   * smallest id above `last_id` is handled and the cursor moves to it,
   * whether it had no HTML, generation failed, or tags were saved.
   */
  function Run(st: State, shape: Shape, cases: seq<CaseRow>, reply: (string, int) -> G.Outcome,
               parse: string -> Option<Json>, linkFails: int -> bool): (r: State)
    ensures shape == OtherResult ==> r == st
    ensures shape != OtherResult ==>
      var p := InitProgress(st.progress, shape);
      var last := LastId(p[TaskName]);
      match NextRow(cases, CaseId, last)
      case None => r == st.(progress := p)
      case Some(j) =>
        && cases[j].id > last
        && r.progress == p[TaskName := JNum(cases[j].id)]
        && (forall p :: p in r.tables.relations - st.tables.relations ==> p.0 == cases[j].caseId)
        && (forall s :: s in st.tables.tags ==> s in r.tables.tags && r.tables.tags[s] == st.tables.tags[s])
    ensures Valid(st.tables) ==> Valid(r.tables)
  {
    var st1 := st.(progress := InitProgress(st.progress, shape));
    match FirstRow(shape, ProgressRows(st1.progress))
    case None => st1
    case Some(None) => st1
    case Some(Some(lastValue)) =>
      match NextRow(cases, CaseId, LastId(lastValue))
      case None => st1
      case Some(j) => Handle(st1, shape, cases[j], reply, parse, linkFails)
  }

  // ------------------------------------------------------------------ the command, imperatively

  class TagStore {
    var progress: map<string, Json>
    var tables: Tables
    const shape: Shape

    constructor (progress0: map<string, Json>, tables0: Tables, shape0: Shape)
      ensures progress == progress0 && tables == tables0 && shape == shape0
    {
      progress := progress0;
      tables := tables0;
      shape := shape0;
    }

    /** The `saveTags` loop; `savedTags` is returned. */
    method SaveTagsLoop(caseId: string, tags: seq<G.TagFields>, model: string, linkFails: int -> bool)
      returns (savedTags: seq<Json>)
      modifies this
      ensures (tables, savedTags) == SaveTags(old(tables), shape, caseId, tags, model, linkFails)
      ensures progress == old(progress)
    {
      savedTags := [];
      if caseId == [] || tags == [] {
        return;
      }
      var i := 0;
      while i < |tags|
        invariant 0 <= i <= |tags|
        invariant (tables, savedTags) == SaveAll(old(tables), shape, caseId, tags[..i], model, linkFails)
        invariant progress == old(progress)
      {
        assert tags[..i + 1][..i] == tags[..i];
        assert tags[..i + 1][i] == tags[i];
        ghost var prev := (tables, savedTags);
        var saved := SaveOneTag(caseId, tags[i], model, linkFails(i));
        ghost var step := SaveStep(prev.0, shape, caseId, tags[i], model, linkFails(i));
        assert tables == step.0 && saved == step.1;
        if saved.Some? {
          savedTags := savedTags + [saved.value];
        }
        assert SaveAll(old(tables), shape, caseId, tags[..i + 1], model, linkFails)
          == (SaveStep(prev.0, shape, caseId, tags[i], model, linkFails(i)).0,
              prev.1 + (if saved.Some? then [saved.value] else []));
        assert savedTags == prev.1 + (if saved.Some? then [saved.value] else []);
        assert (tables, savedTags) == SaveAll(old(tables), shape, caseId, tags[..i + 1], model, linkFails);
        i := i + 1;
      }
      assert tags[..|tags|] == tags;
    }

    /** The body of the loop for one tag. */
    method SaveOneTag(caseId: string, tag: G.TagFields, model: string, linkFails: bool) returns (saved: Option<Json>)
      modifies this
      ensures (tables, saved) == SaveStep(old(tables), shape, caseId, tag, model, linkFails)
      ensures progress == old(progress)
    {
      saved := None;
      if Acceptable(tag) && shape != OtherResult {
        var key := JsToString(tag.slug);
        var tagId: int;
        if key in tables.tags {
          tagId := tables.tags[key].id;
        } else {
          tagId := tables.nextId;
          tables := tables.(tags := tables.tags[key := TagRow(tagId, JsToString(tag.en), tag.zh.s, JsToString(tag.es), model)],
                            nextId := tagId + 1);
        }
        if !linkFails {
          tables := tables.(relations := tables.relations + {(caseId, tagId)});
          saved := Some(tag.slug);
        }
      }
    }

    /** What the run does with the picked case. */
    method HandleCase(c: CaseRow, reply: (string, int) -> G.Outcome, parse: string -> Option<Json>,
                      linkFails: int -> bool)
      modifies this
      ensures State(progress, tables) == Handle(old(State(progress, tables)), shape, c, reply, parse, linkFails)
    {
      if c.caseHtml.Some? && c.caseHtml.value != [] {
        var details := CleanHtml(c.caseHtml.value);
        var gen := G.GenerateTags(i => reply(details, i), parse, 0);
        if gen.value.Some? && gen.modelName.Some? {
          var _ := SaveTagsLoop(c.caseId, gen.value.value, gen.modelName.value, linkFails);
        }
      }
      progress := progress[TaskName := JNum(c.id)];
    }

    /** `run()`. */
    method RunOnce(cases: seq<CaseRow>, reply: (string, int) -> G.Outcome, parse: string -> Option<Json>,
                   linkFails: int -> bool)
      modifies this
      ensures State(progress, tables) == Run(old(State(progress, tables)), shape, cases, reply, parse, linkFails)
    {
      if shape != OtherResult && TaskName !in progress {
        progress := progress[TaskName := JNum(0)];
      }
      assert progress == InitProgress(old(progress), shape);
      var found := FirstRow(shape, ProgressRows(progress));
      if found.None? || found.value.None? {
        return;
      }
      var next := NextRow(cases, CaseId, LastId(found.value.value));
      if next.None? {
        return;
      }
      HandleCase(cases[next.value], reply, parse, linkFails);
    }
  }
}
