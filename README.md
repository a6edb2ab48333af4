# Missing-persons site and PFAF plant scraper, modelled in Dafny

This project models the logic of a multilingual missing-persons website
(an AdonisJS application with Python and Node helper scripts) and of the
PFAF plant-database scraper that lives beside it. It states and proves
what that logic promises. Each core source file has one Dafny module in
its own file, named after the source file. Two modules hold what several
files share: `Text` (JavaScript and Python white space, `trim`/`strip`,
the `\s+` collapse, ASCII case mapping, `split`/`join`, `indexOf`,
`parseInt`, order-keeping de-duplication) and `Json` (the shape of a
parsed JSON value and JavaScript truthiness).

What is modelled, in the system's own terms:

- **AI content pipeline.**
  - `GeminiService`: the model list, the request path, fence stripping, the checks on summaries and tags, and the fallback that walks down the model list. `Registry` is the singleton.
  - `SummaryRun`, `TagsRun` and `AiToZhRun`: the three batch commands. Each keeps its cursor in `task_progress`; the tables are fields of a store class.
  - `Tasks`: the cursor reading and HTML clean-up the three commands share.
  - `SummaryNotebook`: the Python summary pipeline in `use_nbformat.py`, with its round-robin retries, JSON clean-up, `clean_html`, case-detail text, `(case_id, lang)` upsert and close-once runner.
  - `LanguageValidator`: the character-class checks and the two validators.
- **SEO and assets.**
  - `SeoAiService`: the line-by-line reader of the model's reply and the `.webp` filename rules.
  - `ImageProcessor`: `strictClean`, the storage naming and the asset rows.
  - `GeoI18n`: place-name normalisation and lookups.
- **Static export and search.**
  - `ExportStatic`: grouping, the pages written and the sitemap.
  - `CaseDetailTemplate`: the variable parts of a case page.
  - `SearchData`: the search index writer. `SearchPage` and `SearchScript` are the two search-page scripts that read it.
- **Operations scripts.**
  - `EnvSync`: the two `.env` uploaders.
  - `DatabaseStructure`: the schema report.
  - `TursoSimple`: `withRetry` and the status buckets.
  - `WebpCommon`, `WebpRun` and `WebpStable`: the WebP conversion commands. Their image processing, uploads and database writes are oracles.
- **Plant scraper.**
  - `PlantPage`: the readers the PFAF scripts share.
  - `PlantLabels`: the labels, selectors and section titles the two analysers read.
  - `PlantSections`: section text.
  - `PlantKeywords`: keyword extraction.
  - `PlantImages`: the two-table image extraction of `analyze_plant_details.js`. `config/test_image_extraction_v2.js` repeats it unchanged, so it is modelled once.
  - `TestImageExtraction`: the three-pass version, with its in-place URL rewrite over an array.
  - `AnalyzePlantDetails` and `ConfigAnalyzePlantDetails`: the record built from a page, its saved row and its statistics.
  - `ConvertPlantToJson` and `ExtractPlantLinks`: the Markdown and sitemap converters.
  - `SetupAnalysisFields`: the migration runner.

The form follows the source. Code that updates objects or tables step by
step is a class or a method with loops and invariants, proved against a
specification function. Pure code is functions and lemmas. Network calls,
database queries, model replies, file reads, random suffixes and clocks
are parameters or oracles.

Where the code does something other than what its surroundings suggest,
the model follows the code and proves the consequence:
- `ai:to-zh` calls a `translateToChinese` that the Gemini service does not define. The translation is therefore a parameter, and its validation accepts any truthy result.
- In `SeoAiService`, 'RETRY' can never be returned (`NeverRetry`). Pipe-separated lines are ignored after the first numbered line (`PipeIgnoredAfterNumbered`).
- In `DatabaseStructure`, the precision branch is dead because the query never selects `numeric_precision`. An index whose name contains "gin" is reported as GIN (`IndexNameDecides`). A negative length is shown (`NegativeLengthShown`).
- In `ImageProcessor`, rows written under a cleaned id survive the delete, which uses the raw id (`StaleRowsKept`).
- In the plant scrapers:
  - the non-plant pattern 'searchV1b' never matches (`SearchPatternNeverMatches`);
  - the same file can be returned twice, because duplicates are compared before normalisation (`PlantImages.RawComparisonKeepsSameFile`, `TestImageExtraction.RawComparisonKeepsSameFile`);
  - url-less images collide as duplicates (`NullUrlsCollide`);
  - a blank Markdown cell shifts the columns (`BlankCellDropped`).
  - the related-plant list is always empty, because `$(element)` is passed where the page's `$` function is expected (`RelatedPlantsAlwaysEmpty`). Both versions of `PlantDetails` follow the code and return that empty list; the list read inside each item is `ExtractRelatedPlantsIntended`.
- In `CaseDetailTemplate`, the label 'Agency' is highlighted because it contains 'Age' (`AgencyHighlighted`).
- In `WebpRun`, files still queued when the run ends are never uploaded (`LeftoverNeverUploaded`).
- The SQL of `get_cases_to_process` in `use_nbformat.py` concatenates literals without spaces, so its cases are a parameter.

## Model

| member | source | states |
|---|---|---|
| SummaryNotebook.DropBeforeBracket | use_nbformat.py:64 | without a '[' the text is kept; otherwise the text from its first '[' on |
| SummaryNotebook.DropAfterBracket | use_nbformat.py:65 | without a ']' the text is kept; otherwise the text up to its first ']' (the lazy `.*?$` stops there), keeping a final newline |
| SummaryNotebook.CleanReply | use_nbformat.py:64-65 | a reply holding '[' cleans to a text starting with '['; a ']' survives only as the last character (or before a final newline) |
| SummaryNotebook.CleanReplyShape | use_nbformat.py:64-65 | the two substitutions in turn give that shape |
| SummaryNotebook.BracketInSummaryTruncates | use_nbformat.py:65 | a ']' inside a summary string cuts the array short: `["a]b"]` cleans to `["a]` |
| SummaryNotebook.ValidateSummaries | use_nbformat.py:69-77 | the checks pass exactly for a list of three dicts, each with a lang in {zh, en, es} and a truthy summary |
| SummaryNotebook.DuplicateLanguagesAccepted | use_nbformat.py:69-77 | three entries with the same language are accepted |
| SummaryNotebook.AttemptOk | use_nbformat.py:57-79 | an attempt returns only a reply that passes the checks |
| SummaryNotebook.Try | use_nbformat.py:36-79 | attempt `i`, with model `i % 3`, returns only a reply that passes the checks |
| SummaryNotebook.GenerateNone | use_nbformat.py:36-84 | the generator returns None exactly when `max_retries <= 0`, so the loop never ran |
| SummaryNotebook.GenerateRaised | use_nbformat.py:80-84 | the generator raises exactly when the loop ran and every attempt failed |
| SummaryNotebook.GenerateReturned | use_nbformat.py:79 | a returned list passes the checks and is the reply of the first attempt that passed |
| SummaryNotebook.GenerateMultiLangSummary | use_nbformat.py:35-84 | the loop's result is the specification's; no model is tried when `max_retries <= 0`, otherwise 1 to `max_retries` models round-robin, all of them when it raises |
| SummaryNotebook.Attempt | use_nbformat.py:57-79 | one attempt's body accepts exactly what `AttemptOk` accepts |
| SummaryNotebook.ModelsTried | use_nbformat.py:36-38 | n attempts use n models |
| SummaryNotebook.ModelsTriedRoundRobin | use_nbformat.py:36-38 | attempt k uses model `k % 3` |
| SummaryNotebook.RoundRobin | use_nbformat.py:36-38 | 3 retries use models 0, 1, 2 and 5 retries use 0, 1, 2, 0, 1 |
| SummaryNotebook.StripTags | use_nbformat.py:137 | after deleting every `<…>` run of at least one character no tag remains, and a '>' remains only if the input had one; a text not starting with '<' keeps its first character; a text without '<' or without '>' is left unchanged |
| SummaryNotebook.StripTagsText | use_nbformat.py:137 | text before the first '<' is kept as it is, in order |
| SummaryNotebook.StripTagsTag | use_nbformat.py:137 | a tag with at least one character inside, up to the first '>', is deleted |
| SummaryNotebook.CleanHtml | use_nbformat.py:134-139 | None and '' give ''; the result has no leading, trailing or doubled white space, and the words of the tag-stripped input with the same gaps between them: each white-space run became one space |
| SummaryNotebook.LineFor | use_nbformat.py:144-161 | a labelled line exactly when the field is truthy, the label followed by the raw value |
| SummaryNotebook.CleanedLineFor | use_nbformat.py:150-165 | a labelled line exactly when the field is truthy, the label followed by the cleaned value, even when cleaning leaves it empty |
| SummaryNotebook.DetailLines | use_nbformat.py:141-167 | at most seven lines |
| SummaryNotebook.DetailLinesShape | use_nbformat.py:141-167 | no line at all exactly when every field is empty; every line is non-empty; the title line comes first when the title is given |
| SummaryNotebook.DetailContentLine | use_nbformat.py:150-152 | the cleaned content line is among the lines whenever the content is given |
| SummaryNotebook.GetCaseDetails | use_nbformat.py:141-167 | the details are the lines joined by '\n' |
| SummaryNotebook.AddLine | use_nbformat.py:144-161 | appends the field's line when it is truthy |
| SummaryNotebook.AddCleanedLine | use_nbformat.py:150-165 | appends the field's cleaned line when it is truthy |
| SummaryNotebook.DetailsEmptyIff | use_nbformat.py:167-180 | the joined details are '' exactly when every field is empty |
| SummaryNotebook.Upsert | use_nbformat.py:114-120 | afterwards the key (case_id, lang) exists with the new summary and time, an existing row keeps its creation time, and every other row is unchanged |
| SummaryNotebook.UpsertTwice | use_nbformat.py:117-118 | a second save of the same pair adds no row and leaves the later summary and time |
| SummaryNotebook.DatabaseService.SaveSummary | use_nbformat.py:114-120 | the rows become the upsert of the old rows; the connection is untouched |
| SummaryNotebook.DatabaseService.Close | use_nbformat.py:122-124 | the connection is closed once more and the rows are unchanged |
| SummaryNotebook.SaveEntries | use_nbformat.py:186-188 | saving a case's summaries keeps every existing key and changes no row of another case |
| SummaryNotebook.SaveEntriesStores | use_nbformat.py:186-188 | when no save fails, every entry's (case_id, lang) is stored, and the key holds the summary of the last entry with that lang |
| SummaryNotebook.CaseStep | use_nbformat.py:175-193 | one case keeps every existing key, changes only its own rows, and changes nothing when it has no details |
| SummaryNotebook.RunCases | use_nbformat.py:174-193 | the loop keeps every existing key and changes no row of a case it did not visit |
| SummaryNotebook.Run | use_nbformat.py:169-197 | a raising query raises and changes no row; otherwise the rows are the loop's; generation is asked for exactly the cases with details; the connection is closed exactly once in every case |
| SummaryNotebook.SentIdsExact | use_nbformat.py:179-184 | the cases sent to generation are exactly those with details |
| SummaryNotebook.ProcessCase | use_nbformat.py:175-193 | one case changes the rows as `CaseStep` says and is sent exactly when it has details; the connection stays open |
| SummaryNotebook.SaveAll | use_nbformat.py:186-188 | the save loop changes the rows as `SaveEntries` says; the connection stays open |
| GeminiService.ModelFor | app/services/gemini_service.ts:40 | the model is `availableModels[modelIndex]` for an index inside the list and `availableModels[0]` for any other index |
| GeminiService.RequestUrlBareName | app/services/gemini_service.ts:75 | a model named `models/<bare>` is addressed at `/v1beta/models/<bare>:generateContent` |
| GeminiService.StripFence | app/services/gemini_service.ts:94 | cleaning never lengthens the reply; an unfenced reply is only trimmed |
| GeminiService.StripFenceWrapped | app/services/gemini_service.ts:94 | a reply wrapped in a leading ```` ```json ```` and a trailing ```` ``` ```` gives back the trimmed body |
| GeminiService.Fallback | app/services/gemini_service.ts:155-165 | the fallback returns a value exactly when it names a model |
| GeminiService.FallbackFirstSuccess | app/services/gemini_service.ts:155-165 | the result is the first accepted reply from `modelIndex` on, named after its model; it gives up with both fields null only when every model up to the last failed |
| GeminiService.Attempts | app/services/gemini_service.ts:155-165 | the first model tried is the one at `modelIndex` |
| GeminiService.AttemptsShape | app/services/gemini_service.ts:159-162 | the indices tried go up by one each time; there are at most `13 - modelIndex` tries, and one when the index is already past the end |
| GeminiService.LastAttemptReturned | app/services/gemini_service.ts:153-165 | the generation returns the result of its last try |
| GeminiService.LaterAttempt | app/services/gemini_service.ts:159-162 | when a try fails and a later model exists, the tries and the result are those that start from the next index |
| GeminiService.OnlyAttempt | app/services/gemini_service.ts:153-165 | when the first try succeeds, or fails on the last model, it is the only try and its result is returned |
| GeminiService.SummaryItem | app/services/gemini_service.ts:144-152 | an accepted element has a lang in {zh, en, es} and a summary that is not blank after trimming |
| GeminiService.AllItems | app/services/gemini_service.ts:144-152 | the elements are accepted exactly when every one passes its check; the accepted list is the checked elements, in order |
| GeminiService.CheckSummaries | app/services/gemini_service.ts:140-152 | accepted exactly when the reply is an array of three elements that each pass; duplicate languages are not rejected |
| GeminiService.AcceptSummaries | app/services/gemini_service.ts:94-153 | one call is accepted exactly when the model answered, the cleaned text parses and the parsed value passes the summary checks |
| GeminiService.GenerateSummaries | app/services/gemini_service.ts:38-166 | `generateMultiLangSummary` never throws; summaries come back exactly when a model name does, they pass the checks, and the model is one of the list |
| GeminiService.FallbackKeeps | app/services/gemini_service.ts:153-165 | whatever every single try guarantees of an accepted value holds of the fallback's result |
| GeminiService.SlugPatternShape | app/services/gemini_service.ts:237 | `^[a-z0-9]+(?:-[a-z0-9]+)*$` accepts exactly the non-empty `[a-z0-9-]` words that neither start nor end with '-' and hold no "--" |
| GeminiService.TagItem | app/services/gemini_service.ts:232-239 | an accepted tag has truthy slug, en, zh and es, and its slug has the pattern's shape |
| GeminiService.CheckTags | app/services/gemini_service.ts:227-240 | accepted exactly when the reply is an array (possibly empty) whose every element passes |
| GeminiService.AcceptTags | app/services/gemini_service.ts:223-242 | one call is accepted exactly when the model answered, the cleaned text parses and every tag passes |
| GeminiService.GenerateTags | app/services/gemini_service.ts:168-255 | `generateMultiLangTags` never throws; tags come back exactly when a model name does, they pass the checks, and the model is one of the list |
| GeminiService.Client.constructor | app/services/gemini_service.ts:26-29 | the key is `GEMINI_API_KEY`, or '' when unset |
| GeminiService.Registry.constructor | app/services/gemini_service.ts:5 | the static `instance` slot starts empty |
| GeminiService.Registry.GetInstance | app/services/gemini_service.ts:31-36 | the first call creates the client and stores it; every later call returns that same object |
| GeminiService.GetInstanceTwice | app/services/gemini_service.ts:31-36 | two calls return the same object |
| Tasks.FirstRow | commands/gemini_summary_run.ts:24-32 | a driver result that is neither an array nor has `rows` is a format error; otherwise the first row, or none exactly when there are no rows |
| Tasks.NextRow | commands/gemini_summary_run.ts:43 | no row exactly when no id exceeds `last_id`; otherwise the row has the smallest id above `last_id` |
| Tasks.StripTags | commands/gemini_summary_run.ts:107 | after replacing each `<…>` run by a space no '<' is followed by a '>', and a '>' remains only if the input had one; a text without '<' or without '>' is left unchanged |
| Tasks.StripTagsText | commands/gemini_summary_run.ts:107 | text before the first '<' is kept as it is, in order |
| Tasks.StripTagsTag | commands/gemini_summary_run.ts:107 | a tag, from '<' to the first '>' after it, becomes exactly one space |
| Tasks.NoTagNonSpace | commands/gemini_summary_run.ts:107-109 | collapsing white space neither creates nor removes a tag |
| Tasks.CleanHtml | commands/gemini_summary_run.ts:105-112 | at most 2000 characters, no tag, no leading white space, only single ' ' as white space; its words are a prefix of those of the tag-stripped text, all of them with the same gaps when the squeezed text fits, and exactly 2000 characters are kept when it does not |
| Tasks.TruncateKeeps | commands/gemini_summary_run.ts:111 | cutting a normalised, tag-free text to 2000 characters keeps it tag-free with single spaces and no leading space |
| SummaryRun.SaveOne | commands/gemini_summary_run.ts:121-149 | skipped or failing entries change nothing; a driver without `rows` appends a new row; with `rows` every row of (case, lang) gets the new summary and model; rows of other keys are untouched; after a write a row with the case, lang, summary and model exists |
| SummaryRun.SaveAllOnlyCase | commands/gemini_summary_run.ts:114-155 | saving summaries of one case changes only that case's rows |
| SummaryRun.SaveOneUnique | commands/gemini_summary_run.ts:130-144 | with a driver that answers with `rows`, one save keeps at most one row per (case, lang) |
| SummaryRun.SaveAllUnique | commands/gemini_summary_run.ts:121-150 | with a driver that answers with `rows`, saving never creates a second row for a (case, lang) pair |
| SummaryRun.SaveAllWithoutRowsInserts | commands/gemini_summary_run.ts:132-143 | with a driver that answers without `rows`, every written entry is a new row |
| SummaryRun.Handle | commands/gemini_summary_run.ts:61-91 | the cursor moves to the case's id whether it had no HTML, generation failed or it was saved; only that case's summaries change |
| SummaryRun.Run | commands/gemini_summary_run.ts:20-96 | a missing progress row, a format error or no case after the cursor writes nothing; otherwise exactly the case with the smallest id above `last_id` is handled and the cursor moves to its id |
| SummaryRun.RunCursorForward | commands/gemini_summary_run.ts:40-91 | a numeric cursor never decreases |
| SummaryRun.SummaryStore.SaveSummariesLoop | commands/gemini_summary_run.ts:114-155 | the loop leaves the table as the specification function describes and the cursor unchanged |
| SummaryRun.SummaryStore.RunOnce | commands/gemini_summary_run.ts:18-96 | the new progress and summary tables are the specification's `Run` of the old ones |
| TagsRun.SaveStep | commands/gemini_tags_run.ts:237-318 | a tag failing the field or language checks, or a driver answering in another shape, writes nothing; an existing slug keeps its row and id; a saved slug is stored and linked to the case; existing tags are never altered, relations only grow and only for this case, and tag ids stay distinct |
| TagsRun.SaveAll | commands/gemini_tags_run.ts:235-319 | existing tag rows are never altered, new relations all belong to the case, ids stay distinct and below the counter, and at most one slug is reported per input tag |
| TagsRun.SavedAreStoredAndLinked | commands/gemini_tags_run.ts:302-314 | every slug in `savedTags` is in the tag table and linked to the case |
| TagsRun.SavedFromInput | commands/gemini_tags_run.ts:242-314 | every slug in `savedTags` is the slug of an input tag that passed the checks |
| TagsRun.SavedExactly | commands/gemini_tags_run.ts:235-315 | when no link fails, `savedTags` lists exactly the slugs of the tags that pass the checks, in input order |
| TagsRun.SaveAllCovered | commands/gemini_tags_run.ts:257-307 | saving tags whose slugs are already stored and linked to the case changes no table |
| TagsRun.StepCovered | commands/gemini_tags_run.ts:272-307 | one tag already stored and linked to the case changes no table |
| TagsRun.SaveAllCovers | commands/gemini_tags_run.ts:257-314 | after a save without link failures, every acceptable tag is stored and linked to the case |
| TagsRun.SaveTwiceSame | commands/gemini_tags_run.ts:258-307 | saving the same tags for the same case a second time leaves the tables as the first save left them: one relation per (case, tag) (with the unique index of line 230) |
| TagsRun.NothingWithoutRows | commands/gemini_tags_run.ts:261-311 | with a driver whose lookup answers as an object, no tag is linked and nothing is written |
| TagsRun.InitProgress | commands/gemini_tags_run.ts:133-155 | ('ai-tags', 0) is inserted only when the lookup finds no row; a driver answering as an object counts as an existing row |
| TagsRun.Handle | commands/gemini_tags_run.ts:75-105 | the cursor moves to the case's id whether it had no HTML, generation failed or tags were saved; tags are never altered, new relations belong to this case, ids stay distinct |
| TagsRun.Run | commands/gemini_tags_run.ts:18-111 | after the cursor row is ensured, a format error or no case after the cursor changes nothing else; otherwise the case with the smallest id above `last_id` is handled and the cursor moves to its id |
| TagsRun.TagStore.SaveTagsLoop | commands/gemini_tags_run.ts:178-329 | the loop leaves the tables and `savedTags` as `SaveTags` describes and the cursor unchanged |
| TagsRun.TagStore.SaveOneTag | commands/gemini_tags_run.ts:238-318 | one iteration changes the tables as `SaveStep` describes |
| TagsRun.TagStore.HandleCase | commands/gemini_tags_run.ts:75-105 | the new state is `Handle` of the old one |
| TagsRun.TagStore.RunOnce | commands/gemini_tags_run.ts:16-111 | the new state is `Run` of the old one |
| AiToZhRun.OrEmpty | commands/ai_to_zh_run.ts:73-76 | a truthy field is kept and a falsy one becomes '' |
| AiToZhRun.ToTranslate | commands/ai_to_zh_run.ts:72-77 | every truthy source field is passed on unchanged and every other becomes '' |
| AiToZhRun.TranslateWithAI | commands/ai_to_zh_run.ts:196-218 | a translation comes back exactly when the service answered with a truthy `translatedJson`; it then carries that JSON and the answering model |
| AiToZhRun.FirstTranslationMeaning | commands/ai_to_zh_run.ts:88-100 | the search gives up exactly when every remaining model index below 3 fails; otherwise it returns the first success |
| AiToZhRun.TranslateLoop | commands/ai_to_zh_run.ts:88-100 | model indices 0, 1, 2 are tried in order, at most three, stopping at the first success; every earlier try failed and the result is the last try's; a failure means all three were tried |
| AiToZhRun.ValidateTranslationResult | commands/ai_to_zh_run.ts:220-238 | the check fails exactly for a falsy result and passes for everything else |
| AiToZhRun.SaveTranslation | commands/ai_to_zh_run.ts:240-308 | a database error is rethrown; a format error writes nothing; a translation missing `race`, `classification`, `distinguishing_marks` or `disappearance_details` throws on its `undefined` binding and writes nothing; otherwise afterwards a row is keyed by the case's `case_info_id` and holds the translation |
| AiToZhRun.Update | commands/ai_to_zh_run.ts:260-278 | an updated row holds the translation and model and keeps its id, case id and case-info id |
| AiToZhRun.SaveTwiceSame | commands/ai_to_zh_run.ts:242-301 | saving the same translation again leaves the table as the first save left it: the second save updates, it does not insert |
| AiToZhRun.Init | commands/ai_to_zh_run.ts:139-187 | the cursor row exists afterwards, an existing one is untouched, a missing one starts at 0, and `cases_info_zh` is empty again |
| AiToZhRun.Handle | commands/ai_to_zh_run.ts:67-131 | the cursor moves to the case after a failed translation or a save that returns; a save that throws (a query error, or a translation missing one of the four keys) leaves everything as it was; rows of other cases are untouched and at most one row is added, for this case |
| AiToZhRun.Run | commands/ai_to_zh_run.ts:13-137 | the table is always recreated; a format error or no case after the cursor does nothing more; otherwise the case with the smallest id above `last_id` is handled, the cursor staying exactly when its save throws, and the table holds at most that case's row |
| AiToZhRun.RunCursorForward | commands/ai_to_zh_run.ts:104-131 | a numeric cursor never moves back (the cursor starts at line 43) |
| AiToZhRun.FailedSaveRetries | commands/ai_to_zh_run.ts:126-136 | after a save that throws, the next run picks the same case again (the save at lines 304-307 throws) |
| AiToZhRun.RaceOnlyThrows | commands/ai_to_zh_run.ts:260-307 | the translation `{"race": "白人"}` makes the save throw |
| AiToZhRun.UnboundSaveRetries | commands/ai_to_zh_run.ts:260-307 | a translation missing one of the four keys makes the next run pick the same case again |
| AiToZhRun.ZhStore.InitTaskProgress | commands/ai_to_zh_run.ts:139-187 | the new state is `Init` of the old one |
| AiToZhRun.ZhStore.SaveTranslationResult | commands/ai_to_zh_run.ts:240-308 | the table changes as `SaveTranslation` describes and reports whether it threw; the cursor is unchanged |
| AiToZhRun.ZhStore.HandleCase | commands/ai_to_zh_run.ts:67-131 | the new state is `Handle` of the old one |
| AiToZhRun.ZhStore.RunOnce | commands/ai_to_zh_run.ts:13-137 | the new state is `Run` of the old one |
| LanguageValidator.ContainsChinese | app/utils/language_validator.ts:11-14 | true exactly when some character lies in U+4E00..U+9FA5 |
| LanguageValidator.ContainsSpanish | app/utils/language_validator.ts:21-25 | true exactly when some character is one of ñáéíóúü¿¡ or their upper-case forms |
| LanguageValidator.EnglishOnlyMeaning | app/utils/language_validator.ts:32-37 | `isEnglishOnly` holds exactly when the text is non-empty and every character is in the class; such a text has no Chinese and no Spanish character; '' is rejected |
| LanguageValidator.EnglishCharOnly | app/utils/language_validator.ts:34 | no character of the English class is a Chinese or Spanish character |
| LanguageValidator.EnglishOnlyExample | app/utils/language_validator.ts:34 | the class `()-;` is the range ')'..';', so "*+/" passes |
| LanguageValidator.SpanishOnlyMeaning | app/utils/language_validator.ts:44-49 | `isSpanishOnly` holds exactly when the text is non-empty and every character is in the class; such a text has no Chinese character; '' is rejected |
| LanguageValidator.SpanishOnlyExample | app/utils/language_validator.ts:46-48 | "¿Dónde?" passes |
| LanguageValidator.ChineseOnlyRejectsLetters | app/utils/language_validator.ts:56-60 | `isChineseOnly` is false for '' and for any text holding an ASCII letter |
| LanguageValidator.ValidateTagLanguages | app/utils/language_validator.ts:67-96 | valid exactly when there are no errors, exactly when en has no Chinese and no Spanish, es has no Chinese and zh is not blank; at most 4 errors |
| LanguageValidator.TagErrorsExact | app/utils/language_validator.ts:74-90 | each of the four errors is reported exactly when its own condition holds |
| LanguageValidator.ValidateSummaryLanguage | app/utils/language_validator.ts:103-143 | valid exactly when there are no errors; blank content gives exactly the one blank error; non-blank zh is valid; es is valid exactly without Chinese; en exactly without Chinese and Spanish; an unknown lang is invalid; the lang is matched case-insensitively; at most 2 errors |
| LanguageValidator.SpanishSummaryValid | app/utils/language_validator.ts:125-129 | non-blank Spanish content without Chinese is valid, whatever the case of "es" |
| SearchData.StripCasePrefix | commands/generate_search_data.ts:35 | a path starting with `case/` in any case loses those five characters; any other path is kept |
| SearchData.Selected | commands/generate_search_data.ts:19-24 | the entries are exactly the rows whose path, full name and case id are all present |
| SearchData.SearchLines | commands/generate_search_data.ts:34-36 | one `name|case_id|path` line per selected case, in order |
| SearchData.SearchFiles | commands/generate_search_data.ts:16-44 | one file per language zh, en, es, each holding the same search data |
| SearchPage.NonBlank | correct.js:8-11 | the kept lines are exactly the lines that are not blank |
| SearchPage.ParseLines | correct.js:12-19 | one item per line, the line's first three `|` pieces as name, case number and path |
| SearchPage.StripKeepsClean | commands/generate_search_data.ts:35 | removing the `case/` prefix keeps a field free of '|' and newlines |
| SearchPage.ParseSearchLine | correct.js:12-19 | a line the writer produces parses back into its case's name, id and path, and is one non-blank line |
| SearchPage.SearchFileRoundTrip | correct.js:7-19 | when no selected field holds '|' or a newline, reading the written search file gives back exactly the written entries, in order |
| SearchPage.FilterIncludes | correct.js:37-40 | the filter throws exactly when an item whose name does not match has no case number; otherwise it keeps exactly the items whose name or case number contains the query, ignoring case |
| SearchPage.Respond | correct.js:25-47 | an empty query clears the results; matches show as their divs; no match shows "无结果"; a filter that throws leaves "..." |
| SearchPage.SearchBox.Load | correct.js:2-20 | the loaded data is the parse of the fetched text; the results are untouched |
| SearchPage.SearchBox.OnInput | correct.js:25-48 | the results become the response to the query; the data is untouched |
| SearchPage.SearchBox.constructor | correct.js:2 | the page starts with no data and no results |
| SearchScript.FiltersAgree | correct_search_script.js:33-36 | the `indexOf != -1` filter keeps exactly what the `includes` filter keeps, and throws on the same data |
| SearchScript.BuildResults | correct_search_script.js:38-41 | the loop builds the concatenation of one `<div>` per match, in order |
| SearchScript.RespondEn | correct_search_script.js:24-46 | an empty query clears the results; no match shows "No results"; matches show the same HTML as the other page; a filter that throws leaves "..." |
| SearchScript.LocalSearchBox.Load | correct_search_script.js:1-19 | the loaded data is the parse of the fetched text; the results are untouched |
| SearchScript.LocalSearchBox.OnInput | correct_search_script.js:24-46 | the results become the response to the query; the data is untouched |
| SearchScript.LocalSearchBox.constructor | correct_search_script.js:1 | the page starts with no data and no results |
| SeoAiService.Complete | app/services/seo_ai_service.ts:107-112 | an open image becomes a record only when all four fields are non-empty |
| SeoAiService.Closed | app/services/seo_ai_service.ts:107-113 | closing an image pushes at most one record, and only a full one (the same closing at lines 174-180) |
| SeoAiService.NonBlankLines | app/services/seo_ai_service.ts:74 | the kept lines are exactly the non-blank lines |
| SeoAiService.Lines | app/services/seo_ai_service.ts:74 | every line read is non-blank and holds no '\n' |
| SeoAiService.DropNumber | app/services/seo_ai_service.ts:118-156 | an unnumbered line is kept; a numbered one loses its `N.` and the white space after it, so what is left does not start with white space |
| SeoAiService.DropQuotes | app/services/seo_ai_service.ts:121 | the result holds no quote character and keeps every other character |
| SeoAiService.CleanName | app/services/seo_ai_service.ts:121-164 | a cleaned filename has no upper-case letter and no quote character |
| SeoAiService.InlineOriginal | app/services/seo_ai_service.ts:119-122 | an `original_filename:` captured on the numbered line is stored cleaned |
| SeoAiService.FieldNameRun | app/services/seo_ai_service.ts:129 | the field name is the longest run of `[a-z_]` characters (either case) at the start |
| SeoAiService.FieldLine | app/services/seo_ai_service.ts:129 | a matched field line has a non-empty `[a-z_]` name and a non-empty value |
| SeoAiService.FieldLineReads | app/services/seo_ai_service.ts:129 | `name: value` with blank space after the colon reads back as that name and value |
| SeoAiService.ApplyField | app/services/seo_ai_service.ts:131-149 | an unknown field name changes nothing; stored filenames stay cleaned |
| SeoAiService.TrimAll | app/services/seo_ai_service.ts:158 | every pipe piece is trimmed |
| SeoAiService.PipeImage | app/services/seo_ai_service.ts:156-168 | a pipe line gives an image only when all four fields are non-empty |
| SeoAiService.StepFacts | app/services/seo_ai_service.ts:94-170 | commentary lines do nothing; a numbered line closes the open image and opens a new one; once an image is open, field lines fill it and no other line adds an image; `isProcessingImage` never goes back to false |
| SeoAiService.ParseLines | app/services/seo_ai_service.ts:91-180 | the loop and the final push give the specification's images |
| SeoAiService.ReadLine | app/services/seo_ai_service.ts:94-170 | one pass of the loop is `Step` |
| SeoAiService.OpenImage | app/services/seo_ai_service.ts:104-124 | a numbered line is handled as `Open` |
| SeoAiService.ReadFieldOrPipe | app/services/seo_ai_service.ts:126-170 | any other line is handled as `ReadOther` |
| SeoAiService.ParseKeepsFull | app/services/seo_ai_service.ts:94-170 | every image pushed is full with cleaned filenames, whatever the lines |
| SeoAiService.StepKeepsFull | app/services/seo_ai_service.ts:94-170 | one line keeps every pushed image full and the open image cleaned |
| SeoAiService.ParsedFull | app/services/seo_ai_service.ts:74-180 | every image read from a reply is full with cleaned filenames |
| SeoAiService.PipeIgnoredAfterNumbered | app/services/seo_ai_service.ts:116-154 | once a numbered line was seen, later lines without a number never add an image: pipe lines are ignored |
| SeoAiService.PipeStep | app/services/seo_ai_service.ts:154-170 | before any numbered line, a pipe line adds its image when it has one |
| SeoAiService.PipeOnly | app/services/seo_ai_service.ts:154-170 | a reply without numbered lines gives exactly the images of its pipe lines |
| SeoAiService.WithWebp | app/services/seo_ai_service.ts:190-193 | the name ends in `.webp` afterwards |
| SeoAiService.Sanitize | app/services/seo_ai_service.ts:197 | every character outside `[a-z0-9-_.]` becomes '-' and every other is kept |
| SeoAiService.SqueezeDashes | app/services/seo_ai_service.ts:198 | no two '-' in a row remain, the first character is kept, and nothing new appears |
| SeoAiService.TrimDashes | app/services/seo_ai_service.ts:199 | removing a leading and a trailing '-' adds nothing |
| SeoAiService.SqueezedShape | app/services/seo_ai_service.ts:196-198 | a `.webp` name stays a `.webp` name over `[a-z0-9-_.]` with single dashes |
| SeoAiService.TrimDashesShape | app/services/seo_ai_service.ts:199 | after trimming dashes the name still ends in `.webp` and does not start with '-' |
| SeoAiService.FixNameShape | app/services/seo_ai_service.ts:190-199 | every fixed name ends in `.webp`, uses only `[a-z0-9-_.]`, does not start with '-' and has no "--" |
| SeoAiService.RenameShape | app/services/seo_ai_service.ts:202-204 | tagging a name already used in the batch keeps it a `.webp` name over `[a-z0-9-_.]` |
| SeoAiService.LowerAll | app/services/seo_ai_service.ts:81 | every original filename is lowercased |
| SeoAiService.Matching | app/services/seo_ai_service.ts:183-185 | exactly the images whose original filename is non-empty and, lowercased, one of the input filenames are kept |
| SeoAiService.SeoNamesWebp | app/services/seo_ai_service.ts:188-206 | every name the renaming hands out is a `.webp` name over `[a-z0-9-_.]` |
| SeoAiService.Named | app/services/seo_ai_service.ts:188-213 | the first n images are renamed |
| SeoAiService.NewNames | app/services/seo_ai_service.ts:202-206 | the names in order |
| SeoAiService.NamedShape | app/services/seo_ai_service.ts:188-213 | each renamed image is its original with only the new filename changed, and that is a `.webp` name |
| SeoAiService.NamedPrefix | app/services/seo_ai_service.ts:188 | renaming more images never changes the earlier ones |
| SeoAiService.NamedUsed | app/services/seo_ai_service.ts:202-206 | `localUsedFiles` holds exactly the names handed out so far |
| SeoAiService.KeepFull | app/services/seo_ai_service.ts:214-216 | only full images are kept, and all are kept when all are full |
| SeoAiService.NamedStep | app/services/seo_ai_service.ts:190-206 | one more image appends its fixed, possibly tagged name to the output and to the used set |
| SeoAiService.Finalize | app/services/seo_ai_service.ts:183-216 | the filter, rename and final filter give the specification's images |
| SeoAiService.OnError | app/services/seo_ai_service.ts:232-236 | an error never yields images; it yields 'RETRY' exactly for status 503 or 429 or a message mentioning "quota" or "rate limit" |
| SeoAiService.FindZh | app/services/seo_ai_service.ts:63 | the first summary whose lang is 'zh', or none when there is no such summary |
| SeoAiService.FromReply | app/services/seo_ai_service.ts:73-229 | the images come back exactly when some survive the processing, otherwise null; never 'RETRY' |
| SeoAiService.Analyze | app/services/seo_ai_service.ts:55-237 | `analyze` returns the specification's result for the generator's answer |
| SeoAiService.OwnErrorsNotRetry | app/services/seo_ai_service.ts:58-66 | the service's own two error messages lead to null, not 'RETRY' (the test at line 235) |
| SeoAiService.NeverRetry | app/services/seo_ai_service.ts:232-236 | `generateMultiLangSummary` never throws, so `analyze` never returns 'RETRY' (the call at line 55 never throws) |
| SeoAiService.FinalizedShape | app/services/seo_ai_service.ts:183-216 | every returned image has four non-empty fields, a `.webp` name over `[a-z0-9-_.]` and an original filename among the lowercased input names |
| SeoAiService.AnalysisShape | app/services/seo_ai_service.ts:55-237 | a successful analysis has at least one image, each of that shape |
| ImageProcessor.Filter | app/services/image_processor_service.ts:20 | a character class removal never lengthens the text |
| ImageProcessor.FilterShape | app/services/image_processor_service.ts:20-36 | exactly the characters of the class are kept, in order |
| ImageProcessor.FilterKeepsAll | app/services/image_processor_service.ts:36 | a text made only of kept characters is unchanged |
| ImageProcessor.TrimUrlTail | app/services/image_processor_service.ts:24 | the result is a prefix of the URL |
| ImageProcessor.TrimUrlTailShape | app/services/image_processor_service.ts:24 | exactly the longest trailing run of `]})>'";:,` and white space goes |
| ImageProcessor.WithScheme | app/services/image_processor_service.ts:30-33 | the result starts with `http://` or `https://`, `http://` being added when neither is there |
| ImageProcessor.NoControls | app/services/image_processor_service.ts:18-40 | both modes remove every character below U+0020 |
| ImageProcessor.CleanTextShape | app/services/image_processor_service.ts:36 | text mode leaves only `[A-Za-z0-9-._/]` and white space, and cleaning twice is cleaning once |
| ImageProcessor.SafeTextFixed | app/services/image_processor_service.ts:36 | an already safe text is left unchanged |
| ImageProcessor.CleanUrlShape | app/services/image_processor_service.ts:22-33 | URL mode gives a URL with a scheme and only URL characters; '%' is not one of them, so escapes are destroyed |
| ImageProcessor.DotsToDashes | app/services/image_processor_service.ts:57 | every '.' becomes '-' and nothing else changes |
| ImageProcessor.FileNameShape | app/services/image_processor_service.ts:57-58 | the file name is safe text, its case-id part holds no '.', and it ends in `.webp` |
| ImageProcessor.KeyUnchanged | app/services/image_processor_service.ts:61 | the final clean of the storage key changes nothing: the key is `<urlPath>/<caseId>/<fileName>` of the cleaned parts |
| ImageProcessor.CaseRowsPositional | app/services/image_processor_service.ts:84-85 | the row of image i has sort order i + 1, and only the first image is primary |
| ImageProcessor.Assets | app/services/image_processor_service.ts:45-102 | the loop writes at most one row per image |
| ImageProcessor.HfFiles | app/services/image_processor_service.ts:96 | one Hugging Face entry per written row |
| ImageProcessor.HfFilesAt | app/services/image_processor_service.ts:96 | each entry is the row's storage path and size |
| ImageProcessor.AssetsRows | app/services/image_processor_service.ts:45-97 | every written row is the row of a successful image, built from its url and position |
| ImageProcessor.AssetsGrow | app/services/image_processor_service.ts:45-101 | a failed image adds nothing, a successful one adds its row at the end |
| ImageProcessor.AssetsOrdered | app/services/image_processor_service.ts:85 | the written rows have strictly increasing sort orders |
| ImageProcessor.AssetsComplete | app/services/image_processor_service.ts:45-97 | every successful image has a row with its position |
| ImageProcessor.NoPrimaryWithoutFirst | app/services/image_processor_service.ts:84 | when the first image fails, no row is primary |
| ImageProcessor.OtherCases | app/services/image_processor_service.ts:12 | the delete keeps exactly the rows of other cases |
| ImageProcessor.AssetTable.DeleteCase | app/services/image_processor_service.ts:12 | the table keeps exactly the rows of other case ids |
| ImageProcessor.AssetTable.Insert | app/services/image_processor_service.ts:82-94 | the row is appended |
| ImageProcessor.ProcessCaseImages | app/services/image_processor_service.ts:10-105 | the table is the other cases' rows followed by the new rows; `processedForHf` lists their files and `caseImageCount` counts them, at most one per url |
| ImageProcessor.AppendImages | app/services/image_processor_service.ts:45-102 | the loop appends the specification's rows and files |
| ImageProcessor.ImageStep | app/services/image_processor_service.ts:46-101 | one pass of the loop extends the rows and files as the specification does |
| ImageProcessor.ProcessImage | app/services/image_processor_service.ts:46-101 | a failed image changes nothing; a successful one appends its row and yields its file |
| ImageProcessor.StaleRowsKept | app/services/image_processor_service.ts:12-83 | the delete uses the raw case id and the inserts the cleaned one, so a row written for `a` survives a run for `a!` |
| ImageProcessor.CaseRowsOfCase | app/services/image_processor_service.ts:83 | every row carries the cleaned case id |
| ImageProcessor.AssetsOfCase | app/services/image_processor_service.ts:83 | every written row belongs to the case |
| ImageProcessor.CleanIdReplacesRows | app/services/image_processor_service.ts:12-83 | for an id that cleaning leaves unchanged, the case's rows afterwards are exactly the new ones |
| GeoI18n.DashesToSpaces | app/services/geo_i18n_service.ts:14 | every '-' becomes ' ' and nothing else changes |
| GeoI18n.CapitalizeWords | app/services/geo_i18n_service.ts:15 | exactly the first character of each word is upper-cased |
| GeoI18n.NormalizeShape | app/services/geo_i18n_service.ts:12-16 | the length is kept, every '-' becomes ' ', each word's first character is upper-cased, nothing else changes, and no word starts with a lower-case letter |
| GeoI18n.NormalizeIdempotent | app/services/geo_i18n_service.ts:12-16 | normalising a normalised name changes nothing |
| GeoI18n.ColumnFor | app/services/geo_i18n_service.ts:83 | 'zh' reads `zh_name`, 'es' reads `es_name`, and every other locale reads `en_name` (the same choice at lines 33, 149 and 172) |
| GeoI18n.FirstMatch | app/services/geo_i18n_service.ts:38-48 | `first()` finds the first row whose `en_name` is the normalised name (and whose type matches when one is given), or none when no row does |
| GeoI18n.FirstMatchIs | app/services/geo_i18n_service.ts:48 | the first matching row is the one found |
| GeoI18n.TranslateGeoName | app/services/geo_i18n_service.ts:26-64 | the original name is always returned as given |
| GeoI18n.TranslateGeoNameMeaning | app/services/geo_i18n_service.ts:26-64 | 'en' or a failing query gives the name back; a found row with a truthy column gives its value; otherwise the name itself |
| GeoI18n.TranslateByGeonameId | app/services/geo_i18n_service.ts:147-162 | a failing query gives null; a result is the column of a row with that id; no such row gives null |
| GeoI18n.ById | app/services/geo_i18n_service.ts:151-157 | a value comes from a row with that id, and none when there is none |
| GeoI18n.ByIdFirst | app/services/geo_i18n_service.ts:155 | the first row with the id is the one read |
| GeoI18n.TranslationsByType | app/services/geo_i18n_service.ts:170-188 | as written: a failing query gives []; otherwise one entry per row of the type, carrying its id, and no entry has a name, because `column as 'name'` is a TypeScript cast and not an SQL alias |
| GeoI18n.NameUndefined | app/services/geo_i18n_service.ts:177-182 | a state row whose `zh_name` is "加州" gives an entry without a name as written, and "加州" under the intended query |
| GeoI18n.TranslationsByTypeIntended | app/services/geo_i18n_service.ts:170-188 | intended: a failing query gives []; otherwise the entries of the rows of the type with the locale's column as `name` |
| GeoI18n.OfType | app/services/geo_i18n_service.ts:174-183 | at most one entry per row |
| GeoI18n.OfTypeMembers | app/services/geo_i18n_service.ts:176-183 | in the intended result, every row of the type gives its (id, locale column) entry, and every entry comes from a row of the type |
| GeoI18n.RowValue | app/services/geo_i18n_service.ts:101-103 | the locale's column when truthy, otherwise `en_name` |
| GeoI18n.NormalizedMapKeys | app/services/geo_i18n_service.ts:97-104 | the map has a key exactly when some row writes it (`en_name|type` or `en_name`) |
| GeoI18n.NormalizedMapLastWins | app/services/geo_i18n_service.ts:98-103 | a key holds the value of the last row that writes it |
| GeoI18n.OrElse | app/services/geo_i18n_service.ts:118-121 | `a || b`: a truthy value wins, otherwise the fallback |
| GeoI18n.Lookup | app/services/geo_i18n_service.ts:111-122 | the typed key first when a truthy type is given, then the bare normalised name, then the name itself |
| GeoI18n.MappedKeys | app/services/geo_i18n_service.ts:109-126 | after k turns the keys are the first k names |
| GeoI18n.MappedLastWins | app/services/geo_i18n_service.ts:124 | a repeated name maps to the lookup made for its last occurrence |
| GeoI18n.WithDefaultsShape | app/services/geo_i18n_service.ts:132-136 | the defaults add exactly the missing names, each mapped to itself, and keep every existing entry |
| GeoI18n.NormalizedNames | app/services/geo_i18n_service.ts:84 | every name is normalised |
| GeoI18n.Requested | app/services/geo_i18n_service.ts:89-92 | `whereIn` keeps exactly the rows whose `en_name` is one of the normalised names |
| GeoI18n.GeoNamesMeaning | app/services/geo_i18n_service.ts:73-139 | the keys are exactly the input names, also when the query fails; 'en' or a failing query maps every name to itself; otherwise each name maps to the lookup for its last occurrence |
| GeoI18n.TranslateGeoNames | app/services/geo_i18n_service.ts:73-139 | the method's map is the specification's |
| GeoI18n.BuildNormalizedMap | app/services/geo_i18n_service.ts:97-104 | the `forEach` builds the specification's map |
| GeoI18n.MapNames | app/services/geo_i18n_service.ts:109-126 | the indexed loop builds the specification's map |
| GeoI18n.AddDefaults | app/services/geo_i18n_service.ts:132-136 | the final `forEach` adds the specification's defaults |
| ExportStatic.RelativePath | commands/export_static.ts:121-123 | the path is lower-cased and a leading `case/` (any case) is removed; no upper-case letter remains |
| ExportStatic.StateName | commands/export_static.ts:124 | the state is the longest prefix of the path without a '/', followed by '/' when shorter than the path |
| ExportStatic.ExportedLast | commands/export_static.ts:110-130 | a path is exported by the cases exactly when an earlier case or the last one has it as its relative path |
| ExportStatic.StepStateKeys | commands/export_static.ts:127-130 | after one case the state keys stay exactly the key order's entries, without repeats |
| ExportStatic.StepStates | commands/export_static.ts:127-130 | after one case a state group holds a path exactly when it did before or the case adds that path under that state |
| ExportStatic.CollectStateKeys | commands/export_static.ts:76-130 | the key order lists exactly the state keys, each once |
| ExportStatic.CollectStateMembers | commands/export_static.ts:110-130 | a state group holds exactly the exported paths whose state part is that state |
| ExportStatic.StepCities | commands/export_static.ts:133-141 | after one case the city keys stay exactly the key order's entries, without repeats, and the case's record is appended to its city |
| ExportStatic.CollectCityKeys | commands/export_static.ts:133-141 | the key order lists exactly the city keys, each once (the groups declared at line 77) |
| ExportStatic.CollectCity | commands/export_static.ts:115-141 | a city group exists exactly for the exported paths and lists that path's cases in query order; cases without `url_path` are skipped |
| ExportStatic.DetailLinks | commands/export_static.ts:206 | at most one detail link per case |
| ExportStatic.DetailLinksAppend | commands/export_static.ts:115-118 | one more case adds `<path>/<case_id>.html` when it has a `url_path`, and nothing otherwise (the sitemap link pushed at line 206) |
| ExportStatic.CollectLinks | commands/export_static.ts:110-211 | the aggregated sitemap links are the detail links, in case order |
| ExportStatic.Aggregate | commands/export_static.ts:110-211 | the loop builds the state groups, city groups and sitemap links of the case list |
| ExportStatic.AddRecord | commands/export_static.ts:114-142 | one pass of the loop is one aggregation step (with the sitemap link pushed at line 206) |
| ExportStatic.AddToGroup | commands/export_static.ts:127-130 | the set under the key gains the value (created empty first), and a new key is appended to the key order |
| ExportStatic.AddToList | commands/export_static.ts:133-141 | the list under the key gains the value at its end (created empty first), and a new key is appended to the key order |
| ExportStatic.IndexLinks | commands/export_static.ts:238-266 | each key gives exactly `<key>/index.html`, in order |
| ExportStatic.PushIndexPages | commands/export_static.ts:219-271 | the loop appends one index link per key to the links |
| ExportStatic.SearchIndexLines | commands/export_static.ts:298-300 | at most one line per case |
| ExportStatic.StripKeepsOneLine | commands/export_static.ts:300 | removing the `case/` prefix never introduces a line break |
| ExportStatic.SearchIndexLinesOneLine | commands/export_static.ts:298-300 | when names and paths hold no line break, no search index line does |
| ExportStatic.SearchIndexSplits | commands/export_static.ts:298-302 | splitting the written search index on '\n' gives back its lines |
| ExportStatic.Run | commands/export_static.ts:52-305 | the run writes exactly the pages, search index and sitemap of the export |
| ExportStatic.ExportSiteMeaning | commands/export_static.ts:213-305 | nothing is written exactly when the language is not zh/en/es; a case argument writes only detail pages; otherwise every page written has its sitemap entry in the same order (home '' being `index.html`) and the search index and sitemap are written (the language test at lines 54-61) |
| ExportStatic.LinkNotHome | commands/export_static.ts:292 | only the last sitemap link is the home page's '' |
| ExportStatic.DetailLinksNonEmpty | commands/export_static.ts:206 | no detail link is empty |
| ExportStatic.TagName | commands/export_static.ts:176 | the localised name when non-empty, else the name when non-empty, else '' |
| ExportStatic.SpacesToDashes | commands/export_static.ts:181 | every white-space character becomes '-' and every other one is kept |
| ExportStatic.TagSlugShape | commands/export_static.ts:181 | a tag slug holds no white space and no upper-case letter |
| ExportStatic.CollapseNoUpper | commands/export_static.ts:181 | collapsing white space runs introduces no upper-case letter |
| ExportStatic.CollapseNoSpace | commands/export_static.ts:181 | a text without white space is unchanged by the collapse |
| ExportStatic.CasesCount | commands/export_static.ts:182 | a missing or zero count becomes 1; any other count is kept |
| ExportStatic.FormatMessage | commands/export_static.ts:187-198 | the message is the key itself or one of the translations for the language |
| ExportStatic.FormatMessageKey | commands/export_static.ts:187-198 | `ui.<k>` gives k's non-empty translation; a key without `ui.` gives its own translation, or itself when none is non-empty |
| EnvSync.LoadedKeys | commands/sync_env_to_hf.ts:33-44 | the key order lists exactly the dictionary's keys, each once |
| EnvSync.LoadedHas | commands/sync_env_to_hf.ts:42 | a key is in the dictionary exactly when some parsed line sets it |
| EnvSync.LoadedLastWins | commands/sync_env_to_hf.ts:42 | a key set on several lines keeps the value of the last one |
| EnvSync.Parsed | commands/sync_env_to_hf.ts:35 | one parse result per line, in line order |
| EnvSync.Load | commands/sync_env_to_hf.ts:33-44 | the `forEach` loop builds the dictionary of the parsed lines |
| EnvSync.JsUnquote | commands/sync_env_to_hf.ts:41 | a value starting and ending with a quote (either kind, no line break inside) loses both; any other value is unchanged |
| EnvSync.RejoinedValue | commands/sync_env_to_hf.ts:38-39 | splitting on '=' and rejoining the tail gives what follows the first '=', and the head is what precedes it |
| EnvSync.JsEntryMeaning | commands/sync_env_to_hf.ts:37-43 | a line is skipped exactly when blank or starting with '#'; otherwise the key is the trimmed text before the first '=' and the value the unquoted trimmed rest, or the whole trimmed line and '' without '=' |
| EnvSync.KeysToSync | commands/sync_env_to_hf.ts:47-51 | exactly the keys outside PORT, HOST, LOG_LEVEL, HF_TOKEN and HF_REPO_ID are kept, in order |
| EnvSync.KeysToSyncDistinct | commands/sync_env_to_hf.ts:47-51 | filtering distinct keys keeps them distinct |
| EnvSync.SecretFiles | commands/sync_env_to_hf.ts:60-63 | one file `secrets/<key>` per key holding that key's value, in order |
| EnvSync.SecretFilesPaths | commands/sync_env_to_hf.ts:60-63 | distinct keys give distinct paths, and a key is uploaded exactly when it is in the list |
| EnvSync.SyncEnvFilesMeaning | commands/sync_env_to_hf.ts:14-63 | nothing is uploaded exactly when the token, the repository id or the `.env` file is missing; otherwise there is exactly one file per parsed key outside the skip list, with no path twice |
| EnvSync.SyncEnvToHf | commands/sync_env_to_hf.ts:11-72 | the command uploads the files of the export when the upload succeeds, and nothing otherwise |
| EnvSync.PyUnquote | sync_hf_secrets.py:31-32 | a value with the same quote at both ends loses them (a lone quote becomes ''); any other value is unchanged |
| EnvSync.PyEntry | sync_hf_secrets.py:22-33 | a line gives a variable only when it holds '=' |
| EnvSync.IndentedComment | sync_hf_secrets.py:22-24 | an indented `#` line is a variable for the command and a comment for the script |
| EnvSync.LineWithoutEquals | sync_hf_secrets.py:26 | a line without '=' is a variable with value '' for the command and skipped by the script |
| EnvSync.MismatchedQuotes | sync_hf_secrets.py:31-32 | mismatched quotes are removed by the command and kept by the script |
| EnvSync.SyncHfSecrets | sync_hf_secrets.py:10-51 | a missing token stops before anything is read; otherwise every key is tried once in first-set order, and successes plus failures equal the number of variables |
| EnvSync.AddSecrets | sync_hf_secrets.py:39-49 | every key is tried once, in order, and counted either as a success or as a failure, the successes being the calls that succeeded |
| DatabaseStructure.IntToString | commands/database_structure.ts:68-70 | the decimal text of a number is never empty |
| DatabaseStructure.NamesOf | commands/database_structure.ts:98-106 | one constraint name per row, in row order |
| DatabaseStructure.ColumnsOfAbsent | commands/database_structure.ts:98-106 | a name no row carries collects no columns |
| DatabaseStructure.GroupedNames | commands/database_structure.ts:97-110 | the constraint names are listed once each, in first-seen order, and exactly they have a group |
| DatabaseStructure.GroupedMeaning | commands/database_structure.ts:97-106 | a name has a group exactly when a row carries it; the group's type is that of its first row and its columns those of its rows in row order |
| DatabaseStructure.GroupConstraints | commands/database_structure.ts:97-106 | the `forEach` builds the grouping of the constraint rows |
| DatabaseStructure.ParenGroup | commands/database_structure.ts:167-168 | a match is a non-empty text without ')' that appears in parentheses in the definition |
| DatabaseStructure.OpensShift | commands/database_structure.ts:167 | a parenthesised group found at a position is found one position earlier in the text without its first character |
| DatabaseStructure.ParenGroupNone | commands/database_structure.ts:167-168 | there is no match exactly when no position opens a parenthesised group |
| DatabaseStructure.ParenGroupLeftmost | commands/database_structure.ts:167-168 | the match is the group that opens first |
| DatabaseStructure.IndexColumns | commands/database_structure.ts:167-168 | the columns are '' exactly when no parenthesised group exists, and otherwise a parenthesised text of the definition without ')' |
| DatabaseStructure.IndexType | commands/database_structure.ts:171-174 | HASH exactly when the lower-cased definition contains "hash"; GIN when "gin" but not "hash"; GIST when "gist" but neither; BTREE otherwise |
| DatabaseStructure.IndexNameDecides | commands/database_structure.ts:171-174 | an index whose name contains "gin" is reported GIN whatever its method, unless "hash" occurs |
| DatabaseStructure.LowerAppend | commands/database_structure.ts:172-174 | lower-casing distributes over concatenation |
| DatabaseStructure.LengthSuffix | commands/database_structure.ts:66-71 | the suffix is empty exactly when no length is shown and there is no precision, and otherwise is parenthesised |
| DatabaseStructure.TypeWithLength | commands/database_structure.ts:66-71 | the type name followed by the suffix, and unchanged exactly when neither a length nor a precision is shown |
| DatabaseStructure.PrecisionBranchDead | commands/database_structure.ts:45-71 | the column query selects no `numeric_precision`, so on its rows the type gets only a shown length appended, or nothing |
| DatabaseStructure.NegativeLengthShown | commands/database_structure.ts:50-68 | the negative `atttypmod - 4` length of a column declared without one is still shown, e.g. `(-5)` |
| DatabaseStructure.OrEmpty | commands/database_structure.ts:62 | a value that is not given shows as '' |
| DatabaseStructure.ColumnJsonOf | commands/database_structure.ts:252-257 | `is_nullable` is true exactly when the query said 'YES' |
| DatabaseStructure.NullabilityAgrees | commands/database_structure.ts:255 | the TXT line ends in `(NULL)` exactly when the JSON says nullable (the TXT line at line 72) |
| DatabaseStructure.MdColumnLines | commands/database_structure.ts:61-63 | one Markdown row per column, in order |
| DatabaseStructure.TxtColumnLines | commands/database_structure.ts:61-74 | one TXT line per column, in order |
| DatabaseStructure.ConstraintLines | commands/database_structure.ts:108-110 | one Markdown row per constraint name, in insertion order |
| DatabaseStructure.FkLines | commands/database_structure.ts:137-143 | a table without foreign keys gets exactly the placeholder row, otherwise one row per key |
| DatabaseStructure.IndexLines | commands/database_structure.ts:165-177 | one Markdown row per index, in order |
| DatabaseStructure.TxtHeader | commands/database_structure.ts:38-39 | a table's TXT header is its name over a rule of '-' as long as the name |
| DatabaseStructure.RepeatDash | commands/database_structure.ts:39 | the repeated rule is made only of '-' |
| DatabaseStructure.AppendedPrefix | commands/database_structure.ts:61-74 | appending lines never changes what was written before |
| DatabaseStructure.TxtReportHeaders | commands/database_structure.ts:30-39 | every table's header is in the TXT report |
| DatabaseStructure.HeaderInReport | commands/database_structure.ts:34-39 | later tables only extend the TXT report after a table's header |
| DatabaseStructure.HeaderFollows | commands/database_structure.ts:37-39 | a table's section opens with its header right after the sections before it |
| DatabaseStructure.ContainsAfter | commands/database_structure.ts:34-39 | a text written after a prefix of a prefix of the report is contained in the report |
| DatabaseStructure.AppendLines | commands/database_structure.ts:61-74 | the loop appends the lines in order |
| DatabaseStructure.AppendTable | commands/database_structure.ts:37-180 | one pass of the table loop appends that table's Markdown and TXT sections |
| DatabaseStructure.MdReportStep | commands/database_structure.ts:34-181 | the Markdown report of one more table is the earlier report followed by its section |
| DatabaseStructure.TxtReportStep | commands/database_structure.ts:34-181 | the TXT report of one more table is the earlier report followed by its section |
| DatabaseStructure.Report | commands/database_structure.ts:15-199 | the run writes the Markdown and TXT reports of all tables, in table order |
| DatabaseStructure.ColumnMapKeys | commands/database_structure.ts:251-258 | the JSON columns have a key exactly for each column name |
| DatabaseStructure.ConstraintJsons | commands/database_structure.ts:283-287 | one JSON constraint per name, in insertion order, with its type and columns |
| DatabaseStructure.JsonStructureMeaning | commands/database_structure.ts:228-345 | every table has an entry, built from the last table of that name |
| DatabaseStructure.JsonStructureKeys | commands/database_structure.ts:228-234 | the structure has a key exactly for each table name |
| DatabaseStructure.FillColumns | commands/database_structure.ts:251-258 | the loop builds the column map, a later column of the same name overwriting |
| DatabaseStructure.GetJsonStructure | commands/database_structure.ts:215-348 | the loop builds the JSON structure of the tables |
| CaseDetailTemplate.NavPrefix | app/templates/case_detail_template.ts:60-61 | one `../` per path segment, nothing at the root |
| CaseDetailTemplate.NavPrefixReachesRoot | app/templates/case_detail_template.ts:60-61 | from a page as many directories deep as it has segments, the prefixed link names the file at the site root |
| CaseDetailTemplate.HeaderLinksReachRoot | app/templates/case_detail_template.ts:60-61 | the Home and Search links resolve to the root's `index.html` and `search.html` |
| CaseDetailTemplate.Srcs | app/templates/case_detail_template.ts:94-108 | one image address per image |
| CaseDetailTemplate.PhotosOf | app/templates/case_detail_template.ts:84-115 | the photos block appears exactly when there are images; the hero then the thumbnails are all the images in order, each with the case's name as alt text |
| CaseDetailTemplate.ShownFallsBack | app/templates/case_detail_template.ts:123 | a tag shows its own name exactly when its English name is missing, empty or the same |
| CaseDetailTemplate.TagsOf | app/templates/case_detail_template.ts:118-127 | the tags block appears exactly when there are tags, one label per tag in order |
| CaseDetailTemplate.NeighbourLink | app/templates/case_detail_template.ts:207-223 | a link exists exactly for a given neighbour, shows its name and ends in `<id>.html` |
| CaseDetailTemplate.Render | app/templates/case_detail_template.ts:34-236 | the title and heading carry the name; each block appears exactly when its data is present and is the one built from that data (photos, tags, neighbour links, breadcrumbs); the header links reach the site root |
| CaseDetailTemplate.PartWrapped | app/templates/case_detail_template.ts:156-160 | a part is wrapped exactly when its trimmed text holds a keyword, and is otherwise that trimmed text |
| CaseDetailTemplate.Highlighted | app/templates/case_detail_template.ts:155-161 | each part of a combined label is highlighted on its own, as many parts as before |
| CaseDetailTemplate.Highlight | app/templates/case_detail_template.ts:150-167 | a single label is wrapped whole exactly when it holds a keyword, and is otherwise unchanged |
| CaseDetailTemplate.LabelSpan | app/templates/case_detail_template.ts:148-170 | the replacement keeps the `stat-label` span around the highlighted label |
| CaseDetailTemplate.AgencyHighlighted | app/templates/case_detail_template.ts:150-166 | "Investigating Agency" is highlighted because 'Age' is a substring of it |
| CaseDetailTemplate.CombinedLabel | app/templates/case_detail_template.ts:154-161 | "Sex / Race" becomes the two wrapped words around '/', without the spaces |
| CaseDetailTemplate.TwoParts | app/templates/case_detail_template.ts:154-161 | a label of two '/'-free parts is the two highlighted parts around one '/' |
| CaseDetailTemplate.KeywordPart | app/templates/case_detail_template.ts:157-159 | a part that trims to a keyword is wrapped |
| SetupAnalysisFields.Kept | config/setup_analysis_fields.js:49-51 | the filter keeps some of the pieces, never more |
| SetupAnalysisFields.KeptAppend | config/setup_analysis_fields.js:49-51 | filtering two runs of pieces is filtering each |
| SetupAnalysisFields.KeptAround | config/setup_analysis_fields.js:49-51 | a piece is kept in place exactly when it passes the test |
| SetupAnalysisFields.KeptKeeps | config/setup_analysis_fields.js:49-51 | every kept piece is non-blank and does not start with `--` once trimmed |
| SetupAnalysisFields.CommentedPieceDropped | config/setup_analysis_fields.js:50 | a piece starting with `--` is dropped whole, the SQL after the comment included |
| SetupAnalysisFields.TrimCovers | config/setup_analysis_fields.js:54 | a non-space character after no leading space survives trimming |
| SetupAnalysisFields.BlankFrom | config/setup_analysis_fields.js:54 | a blank tail holds only white space |
| SetupAnalysisFields.IsSelectUpper | config/setup_analysis_fields.js:58 | the SELECT test is the upper-cased statement starting with `SELECT` |
| SetupAnalysisFields.TrimAll | config/setup_analysis_fields.js:54 | one trimmed statement per statement |
| SetupAnalysisFields.PlanUpTo | config/setup_analysis_fields.js:53-61 | no more statements are run than are visited |
| SetupAnalysisFields.StatementsNonEmpty | config/setup_analysis_fields.js:49-55 | no kept statement trims to nothing, so the `if (statement)` test always passes |
| SetupAnalysisFields.PlanSkipsOnlyFinalSelect | config/setup_analysis_fields.js:53-63 | every statement is run in order, except the last one when it is a SELECT |
| SetupAnalysisFields.AllRunBefore | config/setup_analysis_fields.js:53-63 | every statement before the last is run, at its own position |
| SetupAnalysisFields.FirstFailure | config/setup_analysis_fields.js:63-68 | the first statement whose query fails, every earlier one succeeding |
| SetupAnalysisFields.Texts | config/setup_analysis_fields.js:63 | the texts of the planned statements, in order |
| SetupAnalysisFields.Sent | config/setup_analysis_fields.js:63-68 | the statements sent are those up to and including the first failure, or all of them |
| SetupAnalysisFields.PlanPrefix | config/setup_analysis_fields.js:53-70 | the statements run among the first ones are a prefix of all those run |
| SetupAnalysisFields.RunStatements | config/setup_analysis_fields.js:53-73 | the loop reports success exactly when no query fails, and sends the statements up to the first failure |
| SetupAnalysisFields.ExecuteSqlFile | config/setup_analysis_fields.js:43-78 | splitting, filtering, trimming and running give success exactly when no planned query fails, having sent the statements up to the first failure |
| SetupAnalysisFields.AllSucceedSnoc | config/setup_analysis_fields.js:53-70 | one more statement keeps all succeeding exactly when it succeeds |
| SetupAnalysisFields.FirstFailureNone | config/setup_analysis_fields.js:72-73 | when every query succeeds there is no failure |
| SetupAnalysisFields.FailureAt | config/setup_analysis_fields.js:65-68 | the first failing statement after succeeding ones is the first failure, and the plan begins with them |
| TursoSimple.Wrap | test_turso_simple.ts:26 | the recorded error is always an Error, and an Error is kept as it is |
| TursoSimple.Backoff | test_turso_simple.ts:27-31 | the k-th wait lasts delayMs·2^k, one wait per failure counted |
| TursoSimple.WithRetry | test_turso_simple.ts:19-36 | at most maxRetries calls; a value returns at the first successful call, every earlier one having failed; otherwise every attempt failed and the last failure, wrapped, is thrown (null when no attempt is made); the waits come only between attempts, doubling |
| TursoSimple.DefaultBackoff | test_turso_simple.ts:19 | with the defaults the helper waits 1000 ms then 2000 ms |
| TursoSimple.LastCountMeaning | test_turso_simple.ts:182-191 | statuses 0, 1 and 2 take the count of the last group with that status, not a sum |
| TursoSimple.LastCountNone | test_turso_simple.ts:139-191 | a status no group has stays 0 |
| TursoSimple.NullThenZero | test_turso_simple.ts:183-187 | a null status group and a 0 group both land in `pending`, the later count winning |
| TursoSimple.OtherSumCovers | test_turso_simple.ts:192-194 | `abnormal` is at least the count of each other-status group |
| TursoSimple.OtherSumNonNegative | test_turso_simple.ts:192-194 | `abnormal` is never negative for non-negative counts |
| TursoSimple.BucketStatuses | test_turso_simple.ts:182-195 | the `forEach` fills the four buckets of the status groups |
| ConvertPlantToJson.CloseParen | config/convert_plant_to_json.js:38 | the lazy `(.*?)\)` ends at a ')' at or after the start |
| ConvertPlantToJson.NoBracketNoLink | config/convert_plant_to_json.js:38-59 | a cell without '[' holds no link, so the whole cell is the Latin name |
| ConvertPlantToJson.CloseParenSkips | config/convert_plant_to_json.js:38 | the group ends at the first ')' when no line break comes before it |
| ConvertPlantToJson.LinkFromSkips | config/convert_plant_to_json.js:38 | the lazy name group passes characters that are neither ']' nor line breaks |
| ConvertPlantToJson.LinkShapeOf | config/convert_plant_to_json.js:38 | `[n](u)` has the shape the pattern looks for |
| ConvertPlantToJson.LinkCell | config/convert_plant_to_json.js:38-42 | a cell `[n](u)` gives the name n and the URL u |
| ConvertPlantToJson.Keep | config/convert_plant_to_json.js:28 | no more cells than parts, none empty |
| ConvertPlantToJson.KeepCell | config/convert_plant_to_json.js:28 | a blank part vanishes, any other becomes its trimmed non-empty text |
| ConvertPlantToJson.KeepAppend | config/convert_plant_to_json.js:28 | the cells of two runs of parts are the cells of each |
| ConvertPlantToJson.BlankCellDropped | config/convert_plant_to_json.js:28-35 | a blank cell vanishes, so the cells after it move one column left |
| ConvertPlantToJson.CellsOfParts | config/convert_plant_to_json.js:28 | a line made by joining '|'-free parts has as cells the non-blank parts, trimmed |
| ConvertPlantToJson.Rating | config/convert_plant_to_json.js:34-35 | the rating is the parsed integer whenever the cell parses, and 0 when it does not (or parses to 0) |
| ConvertPlantToJson.ParseRow | config/convert_plant_to_json.js:24-42 | a line gives a row exactly when, trimmed, it is non-empty, starts with '|' and has at least four cells; the row's Latin name and URL come from the first cell's link (the cell itself and no URL without one), its common name is the second cell, and its ratings are those of the third and fourth |
| ConvertPlantToJson.CellNameUrl | config/convert_plant_to_json.js:38-42 | a first cell `[n](u)` gives the Latin name n and the URL u; a cell without '[' is the Latin name itself, with no URL |
| ConvertPlantToJson.NamesSnoc | config/convert_plant_to_json.js:46 | adding a plant adds its name to the name set |
| ConvertPlantToJson.AddRow | config/convert_plant_to_json.js:40-73 | a row with a new name is appended under the next id, and anything else leaves the list unchanged; ids stay 1, 2, 3, … and names stay unique |
| ConvertPlantToJson.Collect | config/convert_plant_to_json.js:18-75 | the ids run 1, 2, 3, … and no two plants share a Latin name |
| ConvertPlantToJson.CollectNames | config/convert_plant_to_json.js:45-62 | the Latin names kept are exactly those of the parsed rows |
| ConvertPlantToJson.FirstOccurrenceKept | config/convert_plant_to_json.js:45-71 | the first row with a name is kept with all its fields, under the id of its position among the plants |
| ConvertPlantToJson.Parsed | config/convert_plant_to_json.js:23-24 | one parse result per line |
| ConvertPlantToJson.ParsedSnoc | config/convert_plant_to_json.js:23-24 | one more line adds its parse result |
| ConvertPlantToJson.ParsedStep | config/convert_plant_to_json.js:23 | one more loop index adds the parse result of that line |
| ConvertPlantToJson.ParsedAt | config/convert_plant_to_json.js:24 | each line is parsed on its own |
| ConvertPlantToJson.CollectSnoc | config/convert_plant_to_json.js:23-75 | one more line adds its row exactly when it parses and its name is new |
| ConvertPlantToJson.AddLine | config/convert_plant_to_json.js:24-73 | one loop pass applies the line's row, keeping the name set and the next id in step with the list |
| ConvertPlantToJson.CollectLines | config/convert_plant_to_json.js:23-75 | the loop from line 2 on collects the plants of the body lines |
| ConvertPlantToJson.NextLine | config/convert_plant_to_json.js:23-73 | one turn of the loop extends the plants of lines 2..i to those of lines 2..i+1, keeping the name set and the next id in step |
| ConvertPlantToJson.Convert | config/convert_plant_to_json.js:14-81 | the JSON holds the plants of the table and `totalPlants` is their number |
| ExtractPlantLinks.NameLength | config/extract_plant_links.js:17 | the greedy `[^<]+` runs to the next '<' or the end |
| ExtractPlantLinks.MatchAt | config/extract_plant_links.js:17 | a match is the PFAF `<loc>` prefix, a '<'-free non-empty name and `</loc>`, at that position |
| ExtractPlantLinks.Matches | config/extract_plant_links.js:17-20 | every matched name is non-empty and '<'-free |
| ExtractPlantLinks.NoLocNoMatch | config/extract_plant_links.js:17-25 | text without a `<loc>` has no match |
| ExtractPlantLinks.IndexOfIs | config/extract_plant_links.js:30 | the first occurrence is where the text first occurs |
| ExtractPlantLinks.StripOpen | config/extract_plant_links.js:30 | removing the first `<loc>` removes the opening tag |
| ExtractPlantLinks.StripClose | config/extract_plant_links.js:30 | removing the first `</loc>` after '<'-free text leaves the text |
| ExtractPlantLinks.PlantUrlChars | config/extract_plant_links.js:17 | the PFAF URL prefix holds neither '<' nor a line break |
| ExtractPlantLinks.StripEntry | config/extract_plant_links.js:28-31 | stripping the tags from a match leaves the page URL |
| ExtractPlantLinks.Links | config/extract_plant_links.js:28-31 | one URL per match, in order, each the PFAF prefix and the name |
| ExtractPlantLinks.Extract | config/extract_plant_links.js:20-37 | the script exits without writing exactly when nothing matches |
| ExtractPlantLinks.ExtractLines | config/extract_plant_links.js:28-37 | splitting the written text on '\n' gives the matched URLs without repeats, in first-seen order |
| ExtractPlantLinks.LinksOneLine | config/extract_plant_links.js:28-31 | no URL holds a line break when the input has none |
| ExtractPlantLinks.MatchesAvoid | config/extract_plant_links.js:17-20 | a character absent from the text is absent from every matched name |
| ExtractPlantLinks.SingleEntry | config/extract_plant_links.js:17-37 | a single sitemap entry gives its page URL |
| ExtractPlantLinks.NameLengthIs | config/extract_plant_links.js:17 | the name runs exactly to the first '<' |
| WebpCommon.RunLength | commands/webp_run.ts:70 | the character run stops at the first stop character or the end |
| WebpCommon.SrcValue | commands/webp_run.ts:70 | the captured source is non-empty and quote-free, and ends after the `src=` |
| WebpCommon.LastSrc | commands/webp_run.ts:70 | the greedy `[^>]+` takes the last `src=` match before the tag's '>' |
| WebpCommon.ImgMatch | commands/webp_run.ts:70 | a match starts with `<img` in any case and captures a non-empty quote-free source |
| WebpCommon.GreedySrc | commands/webp_run.ts:70 | the match takes the last `src=` reachable without crossing '>' |
| WebpCommon.MatchAll | commands/webp_run.ts:70-72 | every source found is non-empty and quote-free |
| WebpCommon.ImgUrls | commands/webp_run.ts:71-72 | a missing `case_html` gives no source, and every source found is non-empty and quote-free |
| WebpCommon.NoImgNoUrls | commands/webp_run.ts:70-74 | HTML without `<img` gives no source |
| WebpCommon.SingleImg | commands/webp_run.ts:70-72 | a single `<img src="u">` gives exactly u |
| WebpCommon.TagFacts | commands/webp_run.ts:70 | the tag text holds the source at position 10 |
| WebpCommon.TagMatch | commands/webp_run.ts:70 | the match at the tag captures its source |
| WebpCommon.RunLengthIs | commands/webp_run.ts:70 | the run is exactly as long as the stretch before the first stop character |
| WebpCommon.CleanPath | commands/webp_run.ts:84 | at most one leading and one trailing '/' are removed, and a path wrapped in '/' loses both |
| WebpCommon.WriteFor | commands/webp_run.ts:76-79 | status 1 exactly when the case did not fail and 2 exactly when it did; the count is the processed count, 0 otherwise (the same writes at lines 106-109 and 157-160) |
| WebpRun.BatchSize | commands/webp_run.ts:21 | never 0; a given argument is parsed with 3 as the fallback |
| WebpRun.DefaultBatchSize | commands/webp_run.ts:21 | a missing argument gives 3 |
| WebpRun.Tries | commands/webp_run.ts:123-147 | one to three upload calls, ending at the first that succeeds |
| WebpRun.AfterSuccess | commands/webp_run.ts:94-152 | a processed case's files join the queue; an upload is tried only when the counter reaches the batch size and the queue is non-empty; on success the queue goes up as one batch and queue and counter reset, otherwise both are kept |
| WebpRun.AfterSuccessConserves | commands/webp_run.ts:94-152 | no queued file is lost or duplicated by a case |
| WebpRun.Successes | commands/webp_run.ts:111-113 | no more successes than cases |
| WebpRun.RunConserves | commands/webp_run.ts:60-162 | every queued file is in an uploaded batch or still in the queue, in queue order |
| WebpRun.FewSuccessesNoUpload | commands/webp_run.ts:119 | with fewer successes than the batch size nothing is uploaded |
| WebpRun.SuccessesBelow | commands/webp_run.ts:111-113 | a case not processed keeps the successes below the number of cases |
| WebpRun.LeftoverNeverUploaded | commands/webp_run.ts:119 | in one fetched batch with a case not processed, no upload happens and the queued files are left in the queue when the run ends (the batch fetched at line 50) |
| WebpRun.UploadWithRetry | commands/webp_run.ts:123-151 | the retry loop uploads the queue as one batch at its first successful call, or leaves it after three failures |
| WebpRun.HandleRecord | commands/webp_run.ts:60-161 | one case gives its status write and the queue after it |
| WebpRun.QueueProcessed | commands/webp_run.ts:102-151 | a processed case's files join the queue and the counter counts it; at the batch size the retry loop uploads the queue |
| WebpRun.NextRecord | commands/webp_run.ts:60-161 | one turn of the loop adds case i's status write and moves the queue from the first i cases to the first i+1 |
| WebpRun.Run | commands/webp_run.ts:19-170 | one status write per fetched case, in order, and the upload queue of the run |
| WebpStable.Pending | commands/webp_stable.ts:33-44 | the pending rows are rows of the table with status 0, a url_path and no status written yet |
| WebpStable.PendingComplete | commands/webp_stable.ts:42-43 | every eligible row is pending |
| WebpStable.Fetch | commands/webp_stable.ts:33-49 | at most five eligible rows, none exactly when nothing is pending |
| WebpStable.PendingIgnores | commands/webp_stable.ts:42 | writing the status of an id no row has changes nothing pending |
| WebpStable.IdSetCons | commands/webp_stable.ts:91-94 | the ids of one more case are the earlier ids and its own |
| WebpStable.PendingAfter | commands/webp_stable.ts:31-113 | once the first m pending cases are written, the rest of the pending list is what stays pending |
| WebpStable.FetchAfter | commands/webp_stable.ts:33-44 | the next fetch continues the pending list where the handled cases end |
| WebpStable.PendingEmpty | commands/webp_stable.ts:33-44 | before anything is written every eligible row is pending |
| WebpStable.IdSetSnoc | commands/webp_stable.ts:91-94 | one more handled case adds its id |
| WebpStable.PrefixSnoc | commands/webp_stable.ts:54 | extending a prefix by the next element gives the longer prefix |
| WebpStable.Handlings | commands/webp_stable.ts:54-108 | one outcome per handled case |
| WebpStable.HandlingsSnoc | commands/webp_stable.ts:54-108 | one more case adds its own outcome |
| WebpStable.CountStep | commands/webp_stable.ts:96-102 | one more case adds one to the successes or the failures, and its count to the images when it succeeded |
| WebpStable.CountsCover | commands/webp_stable.ts:71-108 | successes and failures never exceed the cases, and cover all of them exactly when none lacked images |
| WebpStable.HandleCase | commands/webp_stable.ts:60-108 | one case gives its outcome and its status write |
| WebpStable.BatchEligible | commands/webp_stable.ts:33-54 | the cases of a batch were eligible before anything was written |
| WebpStable.PrefixExtend | commands/webp_stable.ts:54-56 | handling the first n cases of a batch that continues the pending list extends the prefix by n |
| WebpStable.BatchFetchedInOrder | commands/webp_stable.ts:31-113 | handling the first cases of a fetch keeps the handled cases the pending ones in order |
| WebpStable.CountedStep | commands/webp_stable.ts:91-107 | one handled case appends its write and increments the counter of its outcome |
| WebpStable.ProcessBatch | commands/webp_stable.ts:54-109 | the batch loop counts each case and stops before the 101st, handling a prefix of the batch with one write each |
| WebpStable.Run | commands/webp_stable.ts:10-129 | at most 100 cases are handled; the run stops early only when nothing is pending; with distinct ids the handled cases are the first pending ones in table order; each has its write and the counters agree with the outcomes |
| PlantPage.Attr | analyze_plant_details.js:201-208 | `?.trim() \|\| null`: null exactly for an absent or blank value, otherwise the trimmed, non-empty text |
| PlantPage.AttrIdempotent | analyze_plant_details.js:204 | reading an already read value again changes nothing |
| PlantPage.NormalizeImageUrl | analyze_plant_details.js:266-278 | a URL comes back exactly when one was given |
| PlantPage.NormalizedAbsolute | analyze_plant_details.js:266-278 | against the absolute base every normalised URL starts with "http" |
| PlantPage.NormalizeIdempotent | analyze_plant_details.js:266-278 | normalising an already normalised URL leaves it unchanged |
| PlantPage.RelativeResolves | analyze_plant_details.js:271-274 | "../x" and "/x" both resolve to base + "/x" |
| PlantPage.SearchPatternNeverMatches | analyze_plant_details.js:252-262 | the pattern 'searchV1b' holds an upper-case letter, so it never occurs in the lower-cased source and filters nothing |
| PlantPage.FirstKept | analyze_plant_details.js:175-183 | the first cell from k on that the skip test passes over none of, or the end: every cell before it is skipped |
| PlantPage.FirstValueIs | analyze_plant_details.js:175-183 | the value cell is the first one that is neither blank nor the label itself |
| PlantPage.PfafText | analyze_plant_details.js:163-198 | a value is found only when the label is on the page, and is non-empty and trimmed at both ends |
| PlantPage.PfafTextFromRow | analyze_plant_details.js:170-191 | a row with a value cell gives that cell's trimmed text, never the label; only a row without one falls back to the adjacent span |
| PlantPage.ReadersTidy | analyze_plant_details.js:127-198 | the PFAF lookups and `safeExtractText` give null or trimmed non-empty text on any page |
| PlantPage.ExtractPfafText | analyze_plant_details.js:163-198 | the `for` loop over the value cells, then the span fallback, returns the lookup's value |
| PlantPage.Filled | analyze_plant_details.js:215-236 | the pushed records are at most as many as the elements, and each has data |
| PlantPage.FilledMembers | analyze_plant_details.js:215-236 | a record is kept exactly when some element makes it and one of its values is not null |
| PlantPage.KeepFilled | analyze_plant_details.js:215-236 | the `.each` loop that pushes a record when it has data returns the kept records in element order |
| PlantPage.ExtractRelatedPlants | analyze_plant_details.js:211-242 | as written the list is always empty: `$(element)` is a selection, not a function, so every `safeExtractText($(element), …)` and `safeExtractAttr` throws inside its `try` and gives null, and no record has data |
| PlantPage.RelatedAsWritten | analyze_plant_details.js:216-229 | the record each element gives as written has no non-null value |
| PlantPage.RelatedPlantsAlwaysEmpty | analyze_plant_details.js:211-242 | whatever the page holds, no related plant is pushed |
| PlantPage.ExtractRelatedPlantsIntended | analyze_plant_details.js:211-242 | read inside each element, the related plants are the element records with at least one non-null value, in order |
| PlantPage.RelatedKept | analyze_plant_details.js:215-233 | read inside each element, a plant is kept exactly when one of its eleven texts or its image source is not blank |
| PlantPage.RelatedHasDataIff | analyze_plant_details.js:230-232 | `Object.values(…).some(v => v !== null)` holds exactly when one of the twelve values is not null |
| PlantPage.ExtractCareIcons | analyze_plant_details.js:353-375 | the care icons are the element records with at least one non-null value, in order |
| PlantPage.CareIconKept | analyze_plant_details.js:358-368 | an icon is kept exactly when its type, level or title is not blank |
| PlantPage.CountExtracted | analyze_plant_details.js:597-604 | the number of extracted values never exceeds the number of keys |
| PlantPage.CountAllExtracted | analyze_plant_details.js:597-604 | with every value extracted the count is the number of keys |
| PlantPage.CountAllButOne | analyze_plant_details.js:597-604 | with every value but one extracted the count is one less than the number of keys |
| PlantPage.CountPointwise | analyze_plant_details.js:597-604 | extracting more values never lowers the count |
| PlantPage.StoredList | analyze_plant_details.js:571-573 | a list column is null exactly when the list is empty, otherwise the list's JSON text |
| PlantPage.StoredRow | analyze_plant_details.js:561-574 | the row is the saved texts followed by the three list columns, each null exactly when its list is empty |
| PlantPage.StoredValues | analyze_plant_details.js:597-604 | one counted value per saved column |
| PlantPage.StoredValuesMatchRow | analyze_plant_details.js:561-574 | a saved column counts exactly when the row holds a non-empty value in it |
| PlantImages.Candidate | analyze_plant_details.js:281-297 | an `<img>` gives an image exactly when its trimmed source is set and not a non-plant image; the image keeps that source and its table |
| PlantImages.MainImages | analyze_plant_details.js:281-298 | every main-table image has a URL |
| PlantImages.Additional | analyze_plant_details.js:301-321 | every other-table image has a URL that no main image has |
| PlantImages.Normalised | analyze_plant_details.js:327-336 | each image keeps its place and fields, with its URL normalised against https://pfaf.org |
| PlantImages.ExtractImages | analyze_plant_details.js:245-350 | the two `.each` loops, the two `.map`s and the concatenation return the main images, then the additional ones, normalised |
| PlantImages.MainMembers | analyze_plant_details.js:281-298 | an image is a main image exactly when some main-table tag gives it |
| PlantImages.AdditionalMembers | analyze_plant_details.js:301-321 | an image is added exactly when some other-table tag gives it and no main image has its raw source |
| PlantImages.AdditionalKeepsRepeats | analyze_plant_details.js:316-319 | repeats among other-table images are kept: the same tag twice gives the image twice |
| PlantImages.AllAbsolute | analyze_plant_details.js:324-344 | every returned image has a URL starting with "http" |
| PlantImages.RawComparisonKeepsSameFile | analyze_plant_details.js:316-336 | the duplicate test runs on raw sources, so main "/x" and other "../x" are both returned with the same URL |
| PlantKeywords.RemoveSiteName | analyze_plant_details.js:386 | removing "PFAF Plant Database", in any case, never lengthens the title |
| PlantKeywords.RemoveNothing | analyze_plant_details.js:386 | a title without the site name is left unchanged |
| PlantKeywords.RemoveFirstMatch | analyze_plant_details.js:386 | the text before the first match is kept, the match removed, and the scan resumes after it |
| PlantKeywords.WordLength | analyze_plant_details.js:388 | the run of non-separators at the start: none of its characters is a separator and the next one is |
| PlantKeywords.Words | analyze_plant_details.js:388-390 | the pieces of the split are non-empty and free of separators |
| PlantKeywords.WordsJoin | analyze_plant_details.js:410 | splitting words joined by one separator gives the words back |
| PlantKeywords.LowerKeyword | analyze_plant_details.js:388-391 | a kept word, lower-cased, is still longer than two characters, not all digits and without separators |
| PlantKeywords.KeywordsShape | analyze_plant_details.js:378-418 | the keywords are distinct; apart from the lower-cased Latin name each is a lower-case word of more than two characters, not all digits |
| PlantKeywords.TitleKeywordsShape | analyze_plant_details.js:383-392 | every title keyword is an eligible lower-case word without white space |
| PlantKeywords.FieldKeywordsShape | analyze_plant_details.js:400-415 | every field keyword is an eligible lower-case word without comma, semicolon or white space |
| PlantKeywords.Add | analyze_plant_details.js:391 | `keywords.add(w)` keeps the set and its insertion order equal to the distinct words added so far |
| PlantKeywords.AddEligible | analyze_plant_details.js:410-413 | the filter and forEach add exactly the eligible words, lower-cased, in order |
| PlantKeywords.AddFields | analyze_plant_details.js:406-415 | the loop over the ten fields adds exactly the field keywords, in order |
| PlantKeywords.ExtractKeywords | analyze_plant_details.js:378-418 | the result is the distinct candidates in first-seen order, joined by ", " |
| PlantSections.SectionLength | analyze_plant_details.js:145 | the siblings visited are exactly those before the first `<h2>` |
| PlantSections.Texts | analyze_plant_details.js:146-149 | each collected text is non-empty and trimmed at both ends |
| PlantSections.ExtractSectionContent | analyze_plant_details.js:136-160 | the `while` loop and `content.trim() \|\| null` return the section's content |
| PlantSections.LoopStep | analyze_plant_details.js:145-151 | one pass appends the trimmed text, and a space, exactly when the text is not blank |
| PlantSections.TextsStep | analyze_plant_details.js:146-149 | one more sibling adds its trimmed text when it is not blank |
| PlantSections.SectionLengthIs | analyze_plant_details.js:145 | the number of siblings visited is the one the loop's exit singles out |
| PlantSections.SpacedContent | analyze_plant_details.js:153 | `content.trim() \|\| null` is the texts joined by single spaces, or null when there are none |
| PlantSections.SpacedJoin | analyze_plant_details.js:148 | the content built is the joined texts and one trailing space |
| PlantSections.TrimSpaced | analyze_plant_details.js:153 | trimming the built content leaves the texts joined by single spaces |
| PlantSections.SectionContentTrimmed | analyze_plant_details.js:136-160 | a section's content is non-empty and neither starts nor ends with white space |
| PlantSections.StopsAtHeading | analyze_plant_details.js:145 | everything after the next heading is ignored |
| PlantSections.BlankSection | analyze_plant_details.js:147 | a section of blank elements collects no text |
| AnalyzePlantDetails.FieldValues | analyze_plant_details.js:400-407 | one looked-up value per keyword field |
| AnalyzePlantDetails.PlantDetails | analyze_plant_details.js:433-510 | the record keeps the given Latin name, has every value read from the page null or trimmed and non-empty, an empty related-plant list, and the image and care-icon lists of their extractors |
| AnalyzePlantDetails.TextValues | analyze_plant_details.js:439-498 | the 39 text-valued keys of the record |
| AnalyzePlantDetails.ReadValuesTidy | analyze_plant_details.js:439-498 | every value read from the page is null or trimmed and non-empty: lookups, their fallbacks, selectors, synonyms and sections |
| AnalyzePlantDetails.Values | analyze_plant_details.js:597-599 | one value per key of the record, 42 in all |
| AnalyzePlantDetails.CalculateAnalysisResult | analyze_plant_details.js:587-607 | `total_fields` is 31, the list counts are the list lengths, and the extracted count is bounded by the 42 keys |
| AnalyzePlantDetails.CountExceedsTotal | analyze_plant_details.js:587-607 | a page with every value found, `related_plants` being always empty, reports 41 fields extracted out of 31 |
| AnalyzePlantDetails.NoKeywordsNotCounted | analyze_plant_details.js:418 | no keyword gives the empty string, which is not counted |
| AnalyzePlantDetails.SavedTexts | analyze_plant_details.js:561-570 | the 28 values the `INSERT` saves as they are |
| AnalyzePlantDetails.SavedRow | analyze_plant_details.js:561-574 | the `INSERT` row has exactly 31 values |
| AnalyzePlantDetails.SavedValues | analyze_plant_details.js:561-574 | one value per saved column, 31 in all |
| AnalyzePlantDetails.CalculateSavedAnalysisResult | analyze_plant_details.js:587-607 | corrected count: the saved columns that hold a value, never more than `total_fields` |
| AnalyzePlantDetails.SavedCountReachesTotal | analyze_plant_details.js:587-607 | with every saved column filled the corrected count is exactly 31 |
| ConfigAnalyzePlantDetails.ExtractImages | config/analyze_plant_details.js:234-257 | the image records with at least one non-null value, in order |
| ConfigAnalyzePlantDetails.ImageKept | config/analyze_plant_details.js:238-250 | an image is dropped exactly when its source, alt text, title and caption are all blank |
| ConfigAnalyzePlantDetails.PlantDetails | config/analyze_plant_details.js:395-468 | the record keeps the given Latin name, has every value read from the page null or trimmed and non-empty, an empty related-plant list (`extractRelatedPlants` at lines 200-231 fails the same way), and the image and care-icon lists of their extractors |
| ConfigAnalyzePlantDetails.TextValues | config/analyze_plant_details.js:401-456 | the 37 text-valued keys of the record |
| ConfigAnalyzePlantDetails.Values | config/analyze_plant_details.js:552-554 | one value per key of the record, 40 in all |
| ConfigAnalyzePlantDetails.CalculateAnalysisResult | config/analyze_plant_details.js:542-562 | `total_fields` is 29, the list counts are the list lengths, and the extracted count is bounded by the 40 keys |
| ConfigAnalyzePlantDetails.CountExceedsTotal | config/analyze_plant_details.js:542-562 | a page with every value found, `related_plants` being always empty, reports 39 fields extracted out of 29 |
| ConfigAnalyzePlantDetails.SavedTexts | config/analyze_plant_details.js:517-526 | the 26 values the `INSERT` saves as they are |
| ConfigAnalyzePlantDetails.SavedRow | config/analyze_plant_details.js:517-530 | the `INSERT` row has exactly 29 values |
| ConfigAnalyzePlantDetails.SavedValues | config/analyze_plant_details.js:517-530 | one value per saved column, 29 in all |
| ConfigAnalyzePlantDetails.CalculateSavedAnalysisResult | config/analyze_plant_details.js:542-562 | corrected count: the saved columns that hold a value, never more than `total_fields` |
| ConfigAnalyzePlantDetails.SavedCountReachesTotal | config/analyze_plant_details.js:542-562 | with every saved column filled the corrected count is exactly 29 |
| TestImageExtraction.SupplementaryImages | config/test_image_extraction.js:51-62 | every third-pass candidate has a URL longer than five characters |
| TestImageExtraction.AddNew | config/test_image_extraction.js:43-46 | pushing only appends: the earlier records stay first and unchanged |
| TestImageExtraction.RewrittenIsNormalised | config/test_image_extraction.js:73-83 | on every URL a record can hold, the in-place rewriting agrees with `normalizeImageUrl` of the other scraper |
| TestImageExtraction.Normalised | config/test_image_extraction.js:73-83 | each record keeps its place and fields, with its URL rewritten |
| TestImageExtraction.NormalizeUrls | config/test_image_extraction.js:73-83 | the `forEach` rewrites the array's URLs in place to the normalised records |
| TestImageExtraction.PushNew | config/test_image_extraction.js:64-67 | the loop pushes exactly the candidates whose URL is not held yet |
| TestImageExtraction.ExtractImages | config/test_image_extraction.js:8-90 | the three passes, then the rewriting, give the collected records normalised |
| TestImageExtraction.AddNewNoRepeat | config/test_image_extraction.js:43-46 | no pushed record repeats the URL of an earlier record |
| TestImageExtraction.AddNewCovers | config/test_image_extraction.js:43-46 | after a pass every candidate's URL is held |
| TestImageExtraction.AddNewFromCandidates | config/test_image_extraction.js:43-46 | only candidates are pushed |
| TestImageExtraction.MainFirst | config/test_image_extraction.js:13-28 | the main-table images come first, repeats kept |
| TestImageExtraction.RawComparisonKeepsSameFile | config/test_image_extraction.js:64-81 | URLs are compared before rewriting, so main "/x" and supplementary "../x" are both kept with the same URL |
| TestImageExtraction.CollectedPair | config/test_image_extraction.js:13-69 | the two images of that case are both collected, main first |
| TestImageExtraction.NullUrlsCollide | config/test_image_extraction.js:43 | a record without a URL is dropped once an earlier one has none: `null === null` |
| TestImageExtraction.AllAbsoluteOrNull | config/test_image_extraction.js:73-83 | after the rewriting every URL is null or starts with "http" |
| TestImageExtraction.CollectedUrlsSet | config/test_image_extraction.js:16-54 | no collected record has the empty string as URL |
| Text.Trim | analyze_plant_details.js:130 | `trim()`: empty exactly for a blank string; otherwise the contiguous middle, with no white space at either end and only white space around it |
| Text.TrimIdempotent | analyze_plant_details.js:130 | trimming twice is trimming once |
| Text.Collapse | commands/gemini_summary_run.ts:109 | `\s+` to ' ': no two white-space characters in a row, each a space, and the non-space characters kept |
| Text.CollapseKeepsGaps | commands/gemini_summary_run.ts:109 | collapsing keeps where white space separated the words: each run became one space |
| Text.Squeeze | commands/gemini_summary_run.ts:109 | collapse then trim: normalised spacing, same non-space characters, never longer |
| Text.SqueezeKeepsGaps | commands/gemini_summary_run.ts:109 | collapse then trim keeps the words and which of them white space separated |
| Text.NormalisedDetermined | commands/gemini_summary_run.ts:109 | two whitespace-normal texts with the same words and gaps are equal, so the squeezed text is the words joined by single spaces |
| Text.TrimKeepsGaps | analyze_plant_details.js:130 | trimming removes only white space at the ends, never a gap between words |
| Text.Lower | analyze_plant_details.js:261 | lower-casing keeps the length and maps each character |
| Text.LowerNoUpper | analyze_plant_details.js:261 | the lower-cased text has no upper-case letter, and lower-casing it again changes nothing |
| Text.IndexOf | commands/sync_case_html.ts:47 | `indexOf`: -1 exactly when absent, otherwise the first position where the pattern occurs |
| Text.Split | config/convert_plant_to_json.js:15 | `split` gives at least one piece, none holding the separator |
| Text.JoinSplit | config/convert_plant_to_json.js:15 | joining the pieces with the separator gives the text back |
| Text.SplitJoin | config/convert_plant_to_json.js:15 | splitting separator-free pieces joined by it gives the pieces back |
| Text.ParseInt | config/convert_plant_to_json.js:34 | `parseInt` is NaN exactly when no digit follows the sign and base prefix |
| Text.ParseIntOr | config/convert_plant_to_json.js:34 | `parseInt(s) \|\| d` is d exactly for NaN or zero, otherwise the parsed number |
| Text.NatToString | commands/webp_run.ts:21 | a natural number's decimal text is all digits and denotes it |
| Text.ParseNatToString | commands/webp_run.ts:21 | `parseInt` of a natural number's decimal text gives the number back |
| Text.Dedup | config/extract_plant_links.js:34 | `[...new Set(s)]` is distinct, has exactly the elements of s and is never longer |
| Text.DedupDistinct | config/extract_plant_links.js:34 | a list without repeats is left unchanged |
| Text.DedupOrder | config/extract_plant_links.js:34 | the elements come in the order of their first appearance in s |

## Left out

- HTML parsing with cheerio. Each scraper member takes what its selectors find, in document order. The `try`/`catch` blocks that turn a parser error into `[]` or `null` are not modelled, except the one that empties the related-plant list (see Findings).
- Network calls: the Gemini proxy, B2 and Hugging Face uploads, and the remote secret APIs. Each is an oracle giving a payload or a failure.
- Database I/O: PostgreSQL, Supabase and Turso. Tables are maps or sequences, and query results are parameters. The SQL text is not modelled, nor is the database's ordering (`orderBy` in `getTranslationsByType`); rows come in the order given.
- The JSON repair heuristics of `app/services/gemini_service.ts` (lines 97-129) and `JSON.parse`/`json.loads` themselves: parsing is the `parse` oracle.
- Time and randomness: `NOW()` and `updated_at`, `Math.random` suffixes (a parameter), `setTimeout` sleeps (only their durations are modelled), and the `Promise.race` timeouts of the WebP commands (an outcome oracle).
- Floating point: the `toFixed` percentages of `getStats` in `webp:run` and `webp:stable`, and the report of `test_turso_simple.ts`.
- `testTursoQuery`'s reports other than the status buckets.
- Console output, including the `generatedUrls` listing of `export:static`.
- Logging-only functions: `debugHtmlStructure`. Its version in analyze_plant_details.js:427-430 has an empty body; the one in config/analyze_plant_details.js:285-392 only logs what it finds.
- ConfigAnalyzePlantDetails.PlantDetails: does not model the throw of the config `debugHtmlStructure`. It is called outside any `try` (config/analyze_plant_details.js:399) and builds the selector `*:contains("<latinName>")` at line 377. A Latin name the selector parser rejects, such as one holding a double quote, makes `extractPlantDetails` throw. The model always returns a record, because the selector grammar is not modelled.
- The local preview server of `export:static` (lines 331-367), which is a server rather than logic.
- Page bodies. Edge templates and HTML literals are not modelled: an exported page is the path it is written to.
- The fixed markup of `case_detail_template.ts` and its other `caseHtml` rewrites: the date formatting, footer year, photo-div removal, heading restyling and moved blocks. Only label highlighting is modelled.
- The database functions of the plant analysers, which are pure I/O: `getPendingAnalysisRecord`, `updateStatusToAnalyzing`, `updateAnalysisStatusToCompleted`/`Failed`, `getAnalysisStatistics` and `analyzeSinglePlantDetail`.
- The same for `setup_analysis_fields.js`: the client set-up and `main` are left out; the file's text and each statement's success are inputs.
- Notebook generation. The summary pipeline is modelled as the code the notebook runs.
- Unicode case mapping. `toLowerCase`/`toUpperCase`/`lower()` are modelled on ASCII letters only.
- UTF-16 lengths. A Dafny `char` is a scalar value, so a character outside the Basic Multilingual Plane counts 1, not 2.
- Python's universal newlines. Files are split on '\n' only.
- `Object.entries` ordering. Integer-like keys are not moved to the front; insertion order is used.
- `parseInt` precision. Results beyond 2^53 are not rounded as a double would be.
- The WebP transfer variants (`webp_run_fixed.ts`, `webp_run_optimized.ts`, `webp_hf.ts` and the others) and the crawler: they are not part of this model.

## Findings

| source | as written | input that shows it | evidently intended | confidence | as-written member | corrected member |
|---|---|---|---|---|---|---|
| analyze_plant_details.js:587-607 | `extracted_fields` counts every key of the 42-key details object while `total_fields` is 31 | a page where every field is found: 41 of 31 fields extracted, `related_plants` being always empty | count the 31 saved columns that hold a value, so the count never exceeds the total | not executed | AnalyzePlantDetails.CountExceedsTotal | AnalyzePlantDetails.CalculateSavedAnalysisResult |
| config/analyze_plant_details.js:542-562 | `extracted_fields` counts every key of the 40-key details object while `total_fields` is 29 | a page where every field is found: 39 of 29 fields extracted, `related_plants` being always empty | count the 29 saved columns that hold a value, so the count never exceeds the total | not executed | ConfigAnalyzePlantDetails.CountExceedsTotal | ConfigAnalyzePlantDetails.CalculateSavedAnalysisResult |
| analyze_plant_details.js:211-242 | each value of a related plant is read with `safeExtractText($(element), …)`, but `$(element)` is a selection, not the `$` function; the call throws, `safeExtractText` catches it and gives null | any page, even one whose `.related-plants .plant-item` elements all hold every field: no related plant is returned | read each value inside its element, keeping the element records with data | not executed | PlantPage.RelatedPlantsAlwaysEmpty | PlantPage.ExtractRelatedPlantsIntended |
| app/services/geo_i18n_service.ts:177 | `.select('geoname_id as id', column as 'name')`: `as 'name'` is a TypeScript cast, not an SQL alias, so the column keeps its own name and `t.name` at line 182 is undefined | locale 'zh' and one state row whose `zh_name` is "加州": the entry has no name | select the locale's column under the alias `name` (`` `${column} as name` ``) | not executed | GeoI18n.NameUndefined | GeoI18n.TranslationsByTypeIntended |
