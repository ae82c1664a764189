# Article-Generator pipeline, modelled in Dafny

This project models the core of Article-Generator, a browser tool that writes
social-media articles. It does so through a fixed sequence of calls to a
text-generation backend. The model covers six parts of the JavaScript source:

- **The AI-call wrapper** (`src/composables/useAI.js`):
  - `callClaude` is a bounded retry loop. It keeps observable `retryCount`, `error` and `isGenerating` state.
  - `callClaudeJSON` adds a JSON-only instruction to the prompt. It then cleans the answer, extracts the span and parses it.
  - `replaceTemplateVariables` fills `{{key}}` placeholders. A missing value leaves a visible `[缺失: key]` marker.
  - `getValueByPath` and `resolveVariables` read dotted paths and never throw.
  - `batchGenerate` maps settled outcomes to indexed results.
- **The workflow store** (`src/stores/workflow.js`), modelled as the class `WorkflowState.WorkflowStore`:
  - eight fixed steps, each with a status;
  - a capped step index;
  - merged parameters and key/value intermediate results;
  - the final result, the start time, the reset operations and the derived getters.
- **The orchestrator** (`src/utils/workflowOrchestrator.js`), modelled as the class `Orchestrator.WorkflowOrchestrator`. It drives the store through:
  - params, knowledge, profile, empathy points, article, titles, compliance and formatting;
  - then the final result.
- **The history store** (`src/stores/history.js`), modelled as the class `HistoryStore.History`. It is a bounded list, newest record first.
- **The spreadsheet helpers** of `src/composables/useExcel.js`: tag parsing, record normalisation, filter chaining, stable sorting, and the guards of `searchData` and `randomSelect`.
- **The export helpers** of `src/composables/useExport.js`:
  - file-name cleaning;
  - newline-to-`<br>` and the duration text;
  - metadata defaults;
  - the success and failure flags of `exportToHTML`, in the class `ExportHelpers.Exporter`.

Everything outside the program becomes an explicit parameter:

- **The backend** is `Backend = (nat, Request) -> Outcome`, indexed by the global attempt number. Any sequence of answers and failures can therefore be described. An answer's content is a string or null (`None`).
- **Library functions** are uninterpreted function parameters: `JSON.parse`, `JSON.stringify`, `parseFloat`, `new Date(...).getTime()` and Fuse.js search. The `Math.random` shuffle is passed in as a permutation.
- **Clocks and ids** are plain arguments: `Date.now()`, `new Date().toISOString()` and `generateId()`.

JavaScript values are the datatype `JsValues.Value`. It covers undefined, null, booleans, integer numbers, strings, arrays and objects, with JS truthiness and property reads. Reading a property of null or undefined is a `TypeError`. The model treats it as the `Err` branch of a `Result` at every place the code can reach it.

Supporting modules:

- `Wrappers`: `Option` and `Result`.
- `Strings`: trimming, splitting, and integer text.
- `Sequences`:
  - a stable insertion sort by a real-valued key, proved to be the unique stable sort;
  - `filter` with its laws;
  - `MapAll`, which maps over a sequence and stops at the first error.

What the code does, stated here because it is easy to assume otherwise:

- A run has eight steps, in the order of `WorkflowState.InitialStepsFacts`. None of them builds a persona, and none is skipped when it fails: every failure ends the run.
- The knowledge step makes its three requests in turn and stops at the first failure. No setting turns any of them off.
- JSON is recovered only by the span from the first `{` or `[` to the last matching closer. There is no brace-depth scan.
- The failure text of an exhausted call is the Chinese message `AI调用失败 (已重试2次): …`.
- The profile step sends no `persona` variable, so its prompt keeps the marker `[缺失: persona]`. `Orchestrator.ProfilePromptMissingPersona` states this.

## Model

| member | source | states |
|---|---|---|
| GenerationClient.BuildMessages | src/composables/useAI.js:37-43 | One message without a system prompt and two with one. A system message is present exactly when the system prompt is non-empty, and it comes first. The list always ends with exactly one user message holding the user prompt, and no other message is a user message. |
| GenerationClient.BuildRequest | src/composables/useAI.js:29-33 | An absent config field takes its default: temperature 0.7, maxTokens 2000, model `anthropic/claude-sonnet-4.5`. The messages are those of `BuildMessages`. |
| GenerationClient.RunFromSpec | src/composables/useAI.js:35-68 | Every attempt before the last one failed. An answer is returned as it came, null content included, after at most 2 failures. A failed call follows exactly 3 failed attempts and quotes the last message. `error` holds the last failure message. |
| GenerationClient.SuccessAfterFailures | src/composables/useAI.js:35-54 | After k ≤ 2 failures and then an answer, the call returns that answer with `retryCount = k`. |
| GenerationClient.ThreeFailures | src/composables/useAI.js:56-63 | Three failures in a row make the call fail with the exhausted-retries message for the third failure. `retryCount` is then 3. |
| GenerationClient.ExhaustedMessageShape | src/composables/useAI.js:62 | The failure text is `AI调用失败 (已重试2次): ` followed by the last error message. |
| GenerationClient.AIClient.CallClaude | src/composables/useAI.js:24-69 | The loop gives the result, `retryCount` and `error` of the retry specification. It sends the built request once per attempt, in order. `isGenerating` is false on both return and throw. |
| GenerationClient.AIClient.CallClaudeJSON | src/composables/useAI.js:78-108 | The prompt sent is the user prompt plus the JSON-only suffix. A failed call propagates its error unchanged. Null content fails with the TypeError of `response.substring` in the handler. A text answer goes through `JsonRecovery.ParseResponse`. The client state is that of the inner call. |
| GenerationClient.BatchResults | src/composables/useAI.js:217-223 | There is one entry per settled call. Entry i has index i, and it succeeds exactly when call i was fulfilled. It carries the value, possibly null, or the error message. |
| GenerationClient.BatchResultsAppend | src/composables/useAI.js:210-224 | Results are positional: the entries for a concatenation are the entries of the first part, then those of the second with their indices shifted. |
| JsonRecovery.StripJsonFenceRemoves | src/composables/useAI.js:89 | With a leading ```` ```json ```` tag, exactly the tag and the whitespace run after it are removed. The kept text is all that follows that run. Otherwise nothing changes. |
| JsonRecovery.StripFenceRemoves | src/composables/useAI.js:89 | With a leading ```` ``` ````, exactly the fence and the whitespace run after it are removed. Otherwise nothing changes. |
| JsonRecovery.StripTrailingFenceRemoves | src/composables/useAI.js:89 | With a trailing ```` ``` ````, exactly the fence and the whitespace run before it are removed. Otherwise nothing changes. |
| JsonRecovery.CleanResponseInside | src/composables/useAI.js:86-89 | Cleaning only cuts text from the two ends: the cleaned text occurs inside the response. |
| JsonRecovery.SpanStart | src/composables/useAI.js:92 | Finds the leftmost position from which a `{…}` or `[…]` match can start, or reports that there is none. |
| JsonRecovery.LastIndex | src/composables/useAI.js:92 | Finds the last occurrence of a character, or reports that there is none. |
| JsonRecovery.FindSpan | src/composables/useAI.js:92 | A span exists exactly when some `{` or `[` has a later matching closer. The span lies inside the text, opens with `{` or `[`, and ends with the matching closer; `SpanEndsAtLastCloser` pins it to the first opener and the last closer. |
| JsonRecovery.SpanEndsAtLastCloser | src/composables/useAI.js:92 | The span runs from the first opener to the last closer of its kind, and nothing after it closes that kind. |
| JsonRecovery.ParseSource | src/composables/useAI.js:86-102 | The span of the cleaned response when the pattern matches, and the cleaned response itself otherwise. Either way it occurs inside the raw response. |
| JsonRecovery.JsonError | src/composables/useAI.js:106 | The parse-failure message is the fixed header, then exactly the first 200 characters of the raw response (all of it when shorter), then `...`. |
| JsonRecovery.ParseResponse | src/composables/useAI.js:86-107 | Parsing succeeds exactly when `JSON.parse` accepts the extracted source, and a success is exactly the parsed value. A failed span is not retried as the whole text. Every failure carries the same message. |
| JsonRecovery.CleanFenced | src/composables/useAI.js:86-89 | A fenced answer ```` ```json ```` + whitespace + body + whitespace + ```` ``` ```` cleans to exactly the body. |
| JsonRecovery.FencedJsonRecovered | src/composables/useAI.js:86-97 | For a fenced object or array, the body is what gets parsed, and the call succeeds exactly when the body parses. |
| JsonRecovery.CleanPlainFenced | src/composables/useAI.js:86-89 | An object or array fenced by a plain ```` ``` ```` with any whitespace inside the fences cleans to exactly the body. |
| JsonRecovery.PlainFencedJsonRecovered | src/composables/useAI.js:86-97 | For such a plain-fenced object or array, the body is what gets parsed, and the call succeeds exactly when the body parses. |
| JsonRecovery.SpanSkipsProse | src/composables/useAI.js:92 | Prose without openers before the JSON, and text without its closer after it, are skipped: the span is exactly the JSON. |
| JsonRecovery.WholeSpan | src/composables/useAI.js:92 | An object or array that fills the text is its own span. |
| TemplateEngine.PlaceholderEndSound | src/composables/useAI.js:151 | What the scanner recognises at the front is `{{`, one or more characters other than `}`, then `}}`. |
| TemplateEngine.PlaceholderEndComplete | src/composables/useAI.js:151 | A `{{k}}` at the front, with k non-empty and free of `}`, is recognised with exactly that end. |
| TemplateEngine.PlaceholderSpelled | src/composables/useAI.js:151 | A recognised placeholder spells `{{`, its key, `}}`. |
| TemplateEngine.TokenizeKeysWellFormed | src/composables/useAI.js:151-152 | Every key that is cut out is non-empty and free of `}`, as the capture group `[^}]+` demands. |
| TemplateEngine.TokenizeUnparse | src/composables/useAI.js:151-152 | Cutting a template into literal characters and placeholders loses nothing. |
| TemplateEngine.TokenizeLiteralPrefix | src/composables/useAI.js:151-152 | Where no match starts, the scan yields one literal piece per character and then goes on from the end of that text. |
| TemplateEngine.LiteralTextNoMatch | src/composables/useAI.js:151 | In text without `{{` that does not end in `{`, no match can start, whatever follows. |
| TemplateEngine.NoDoubleBraceNoMatch | src/composables/useAI.js:151 | In text without `{{`, no match starts at all. |
| TemplateEngine.ReplaceLiteralPrefix | src/composables/useAI.js:151-152 | In a global replace with a callback, leading text in which no match starts passes through unchanged, whatever follows it. |
| TemplateEngine.ReplacePlaceholderPrefix | src/composables/useAI.js:151-152 | A placeholder at the front becomes the callback's text for its key. The rest is replaced on its own. |
| TemplateEngine.ReplaceMiddle | src/composables/useAI.js:151-152 | For literal text (no `{{`, not ending in `{`), then a placeholder, then more text: the literal text is kept, the placeholder becomes the callback's text, and the rest is replaced on its own. |
| TemplateEngine.ReplaceWithoutPlaceholders | src/composables/useAI.js:151-152 | A text in which no match starts is returned unchanged. |
| TemplateEngine.RenderKey | src/composables/useAI.js:153-165 | A trimmed key that is absent, or whose value is null or undefined, gives the marker `[缺失: key]`. An object or array gives its pretty JSON. Every other value gives `String(value)`: a string as it is, an integer as its decimal text. |
| TemplateEngine.TemplateWithoutPlaceholders | src/composables/useAI.js:147-169 | A template in which `{{` never occurs is returned unchanged. |
| TemplateEngine.ReplaceAfterLiteral | src/composables/useAI.js:147-169 | Literal text (no `{{`, not ending in `{`) before a placeholder is kept. The placeholder becomes the text of its trimmed key, and the rest is substituted on its own. |
| TemplateEngine.MissingKeyLeavesMarker | src/composables/useAI.js:157-159 | A placeholder after literal text whose trimmed key is absent leaves its marker in the output. |
| TemplateEngine.StringValueInsertedVerbatim | src/composables/useAI.js:152-165 | A string value is inserted under its trimmed key exactly as it is. Placeholder-like text in it is not expanded. |
| TemplateEngine.ValueAtPathAppend | src/composables/useAI.js:191-203 | Walking a path in two legs is the same as walking it in one. |
| TemplateEngine.UndefinedAtPath | src/composables/useAI.js:195-198 | Every walk from undefined gives undefined. |
| TemplateEngine.NullishStopsWalk | src/composables/useAI.js:195-198 | Once the walk meets null or undefined with parts left, the result is undefined. |
| TemplateEngine.StoredNullReturned | src/composables/useAI.js:199-202 | A null stored under the last part is returned as null. |
| TemplateEngine.GetValueByPath | src/composables/useAI.js:191-203 | The loop returns the value reached by reading the `.`-separated parts in turn. It never fails. |
| TemplateEngine.ResolveVariables | src/composables/useAI.js:177-185 | There is exactly one entry per mapping key, each equal to `getValueByPath(stores, path)`. |
| TemplateEngine.ExamplePaths | src/composables/useAI.js:191-203 | `x.y` reads a nested value. A path that is absent in the middle or at the end gives undefined. |
| WorkflowState.InitialStepsFacts | src/stores/workflow.js:9-18 | Eight pending steps with distinct ids, in the order params, knowledge, profile, empathy, article, titles, compliance, formatting. |
| WorkflowState.FindStep | src/stores/workflow.js:58 | Finds the first step with the id, or reports that no step has it. |
| WorkflowState.UpdateOnlyNamed | src/stores/workflow.js:57-62 | With distinct ids, only the status of the named step changes. |
| WorkflowState.UnknownIdUnchanged | src/stores/workflow.js:59-61 | An unknown id changes nothing. |
| WorkflowState.AllPendingInitial | src/stores/workflow.js:128-130 | Resetting every status on the store's list gives back exactly the initial step list. |
| WorkflowState.StageCount | src/stores/workflow.js:139-141 | At stage j, exactly the j earlier steps are completed, plus the current step when it is completed. |
| WorkflowState.NextIndex | src/stores/workflow.js:65-69 | `nextStep` moves up one only below the last index. Otherwise it stays. |
| WorkflowState.NextIndexBounded | src/stores/workflow.js:65-69 | From an index inside the list, repeated `nextStep` calls never decrease the index and never leave the list. |
| WorkflowState.CurrentStepInfo | src/stores/workflow.js:135 | The step at the current index, or undefined exactly when the index is outside the list. |
| WorkflowState.CompletedStepsCount | src/stores/workflow.js:136-141 | The count is the length exactly when every step is completed (`isWorkflowComplete`). It is 0 exactly when none is. |
| WorkflowState.CompletedStepsCountAppend | src/stores/workflow.js:139-141 | The count splits over a concatenation. |
| WorkflowState.WorkflowProgress | src/stores/workflow.js:142-144 | The progress is 100·count/length rounded half up, between 0 and 100. An empty list gives NaN, shown as `None`. |
| WorkflowState.RoundedPercent | src/stores/workflow.js:143 | `Math.round` of a percentage: the nearest integer, with halves going up. |
| WorkflowState.ProgressFullIffComplete | src/stores/workflow.js:136-144 | The progress is 100 exactly when every step is completed. |
| WorkflowState.ProgressZeroIffNone | src/stores/workflow.js:139-144 | The progress is 0 exactly when no step is completed. |
| WorkflowState.Duration | src/stores/workflow.js:89 | `now - startTime` when the start time is set and non-zero, otherwise 0. |
| WorkflowState.WorkflowStore.constructor | src/stores/workflow.js:6-49 | The initial state. |
| WorkflowState.WorkflowStore.Intermediate | src/stores/workflow.js:24-35 | Reading an intermediate result gives undefined for a key never stored. |
| WorkflowState.WorkflowStore.SetParameters | src/stores/workflow.js:52-54 | A merge in which new keys win and the other old keys stay. Nothing else changes. |
| WorkflowState.WorkflowStore.UpdateStepStatus | src/stores/workflow.js:57-62 | The loop sets the status of the first step with the id, keeps the step list well shaped, and changes nothing else. |
| WorkflowState.WorkflowStore.NextStep | src/stores/workflow.js:65-69 | The capped increment, which keeps the index in range and never decreases it. |
| WorkflowState.WorkflowStore.SetCurrentStep | src/stores/workflow.js:72-74 | An unchecked assignment: nothing but the index changes. |
| WorkflowState.WorkflowStore.SaveIntermediateResult | src/stores/workflow.js:77-79 | The key gets the value and every other key keeps its value. |
| WorkflowState.WorkflowStore.SetFinalResult | src/stores/workflow.js:82-92 | Title and content are overwritten and `modelUsed` is kept. `generatedAt` is the ISO time and `duration` is `Duration(startTime, now)`. |
| WorkflowState.WorkflowStore.ResetStatuses | src/stores/workflow.js:98-100 | The loop sets every status back to pending. |
| WorkflowState.WorkflowStore.StartGeneration | src/stores/workflow.js:95-101 | The start time is set, the index goes to 0 and every step is pending. Parameters, intermediate results and final result are unchanged. |
| WorkflowState.WorkflowStore.ResetWorkflow | src/stores/workflow.js:104-132 | Exactly the initial values of every field. |
| Orchestrator.DefaultSelection | src/utils/workflowOrchestrator.js:298-300 | Null or undefined options throw. Options without a non-empty `titles` array select nothing. Otherwise the selection is exactly `titles[0].title`, or the error of reading it. |
| Orchestrator.FirstTitleSelected | src/utils/workflowOrchestrator.js:298-300 | A non-empty title list selects `titles[0].title`. |
| Orchestrator.NoTitlesNoSelection | src/utils/workflowOrchestrator.js:298 | An absent, null or empty title list selects nothing, and `selectedTitle` is left as it was. |
| Orchestrator.ChooseTitle | src/utils/workflowOrchestrator.js:324-337 | A truthy `selectedTitle` is used unchanged. Otherwise the title chosen is never null or undefined. |
| Orchestrator.FallbackToFirstTitle | src/utils/workflowOrchestrator.js:325-330 | Without a selection, `titles[0].title || titles[0]` is chosen and stored. |
| Orchestrator.FallbackToDefaultTitle | src/utils/workflowOrchestrator.js:332-335 | Without a selection or titles, the literal `优质内容分享` is chosen and stored. |
| Orchestrator.ComplianceMessage | src/utils/workflowOrchestrator.js:360-364 | The notice throws exactly when the report is null or undefined, or `hasIssues` is truthy and `issues` is null or undefined, with the TypeError of that read. Otherwise it is `已修正<issues.length>处问题` when `hasIssues` is truthy and `无违规内容` when it is not. |
| Orchestrator.FormattingMessage | src/utils/workflowOrchestrator.js:404 | The notice reads `emojiCount`, which throws exactly on a null result. |
| Orchestrator.ProfilePromptMissingPersona | src/utils/workflowOrchestrator.js:160-169 | The profile variables carry no `persona`, so the rendered prompt contains `[缺失: persona]`. |
| Orchestrator.AskedInOrderMeaning | src/utils/workflowOrchestrator.js:50-87 | A stretch of the request log follows a step order exactly when its step ids are a prefix of the order, every request but the last succeeded, and on success the whole order was asked and every answer came back. |
| Orchestrator.InOrderJoin | src/utils/workflowOrchestrator.js:50-87 | A successful stretch for one order followed by a stretch for a second order is a stretch for the joined order. |
| Orchestrator.InOrderStops | src/utils/workflowOrchestrator.js:50-87 | A stretch that ended in a failure also follows any longer order that starts with its own. |
| Orchestrator.ExtendsChain | src/utils/workflowOrchestrator.js:50-87 | A log that grew successfully by one order and then by a second has grown by the joined order. |
| Orchestrator.ExtendsStops | src/utils/workflowOrchestrator.js:50-87 | A log that grew by a failed stretch has grown by a failed stretch of any longer order. |
| Orchestrator.KnowledgeAsked | src/utils/workflowOrchestrator.js:100-133 | One to three new `knowledge` requests, each but the last successful, are a stretch of the order knowledge ×3, and a successful one when all three were made and answered. |
| Orchestrator.WorkflowOrchestrator.constructor | src/utils/workflowOrchestrator.js:16-22 | No callbacks, no notices and no requests yet. |
| Orchestrator.WorkflowOrchestrator.SetProgressCallback | src/utils/workflowOrchestrator.js:27-29 | Installs or removes the progress callback. |
| Orchestrator.WorkflowOrchestrator.SetStepCompleteCallback | src/utils/workflowOrchestrator.js:34-36 | Installs or removes the step-complete callback. |
| Orchestrator.WorkflowOrchestrator.ReportProgress | src/utils/workflowOrchestrator.js:41-45 | A notice is emitted only when a progress callback is set. |
| Orchestrator.WorkflowOrchestrator.AskJson | src/utils/workflowOrchestrator.js:290-295 | A JSON request is made only while its step is in progress, and it is logged with its step, template, variables and answer. |
| Orchestrator.WorkflowOrchestrator.AskText | src/utils/workflowOrchestrator.js:166-175 | The same for a text request. The answer is the content string, or null when the endpoint returned null content. |
| Orchestrator.WorkflowOrchestrator.AskKnowledge | src/utils/workflowOrchestrator.js:100-133 | The three knowledge requests are made in order with the same variables. The requests stop at the first failure, and the result is the three answers. The log grows by these requests alone, each but the last one successful (`Orchestrator.AskedInOrderMeaning`). |
| Orchestrator.WorkflowOrchestrator.StepKnowledgeRetrieval | src/utils/workflowOrchestrator.js:92-150 | In progress before any request. The result is completed with `nextStep`, or failed. `popularArticles`, `keywords` and `rtb` are written only when all three requests succeed, and none of them otherwise. |
| Orchestrator.WorkflowOrchestrator.TextStep | src/utils/workflowOrchestrator.js:155-189 | The profile step, and the article step of the same shape at lines 233-269. One text request; the answer is saved under its key, and the step is completed with `nextStep`, or failed with nothing saved. |
| Orchestrator.WorkflowOrchestrator.StepEmpathyPoints | src/utils/workflowOrchestrator.js:194-228 | One JSON request, whose answer is saved as `empathyPoints`. The step is completed, or failed with nothing saved. |
| Orchestrator.WorkflowOrchestrator.ProposeTitles | src/utils/workflowOrchestrator.js:278-300 | `titleOptions` is saved, then the default selection is applied. A failed request writes nothing. |
| Orchestrator.WorkflowOrchestrator.StepTitleOptimization | src/utils/workflowOrchestrator.js:274-313 | The titles step with its stage transition. It is failed on any error. |
| Orchestrator.WorkflowOrchestrator.ReviewCompliance | src/utils/workflowOrchestrator.js:322-355 | The title is chosen by `ChooseTitle` and stored. Then the compliance request is made with it, and `complianceResult` is written from the answer's `compliance`. |
| Orchestrator.WorkflowOrchestrator.StepCompliance | src/utils/workflowOrchestrator.js:318-373 | The compliance step. It completes and advances before the notice is built, so a failing notice still fails the step. |
| Orchestrator.WorkflowOrchestrator.StepFormatting | src/utils/workflowOrchestrator.js:378-413 | Formatting is fed by `complianceResult` and not by `article` or `selectedTitle`. It saves `formattedResult`. On success the formatted result is neither null nor undefined. |
| Orchestrator.WorkflowOrchestrator.SetFinalResult | src/utils/workflowOrchestrator.js:418-427 | The final title and content are the formatted result's fields, with the store's metadata update. A missing formatted result throws and writes nothing. |
| Orchestrator.WorkflowOrchestrator.RunEarlySteps | src/utils/workflowOrchestrator.js:58-68 | Knowledge, profile, empathy and article run in order, and the log grows by the requests `knowledge` ×3, `profile`, `empathy`, `article` in that order. The run stops at the first failed step, which is left failed. |
| Orchestrator.WorkflowOrchestrator.RunLateSteps | src/utils/workflowOrchestrator.js:70-77 | Titles, compliance and formatting run in order, and the log grows by the requests `titles`, `compliance`, `formatting` in that order. The run stops at the first failed step. |
| Orchestrator.WorkflowOrchestrator.ExecuteWorkflow | src/utils/workflowOrchestrator.js:50-87 | The requests of a run are exactly nine, in the order knowledge ×3, profile, empathy, article, titles, compliance, formatting; a failed run makes a prefix of them, and every request but its last one succeeded. A successful run completes all eight steps and leaves `currentStep = 7`. Its final result comes from the formatted result, with the run's duration. A failed run leaves the earlier steps completed, one step failed and every later step pending. It writes no final result. |
| HistoryStore.DefaultMaxRecords | src/stores/history.js:12 | An unset setting gives `MAX_RECORDS = 10`. |
| HistoryStore.AddKeepsNewest | src/stores/history.js:23-28 | The new record comes first, then the previous records in order, with the oldest dropped beyond `MAX_RECORDS`. |
| HistoryStore.FindIndex | src/stores/history.js:35 | The index of the first record with the id, or -1 when no record has it. |
| HistoryStore.FirstWithId | src/stores/history.js:46 | The record at `findIndex`, or undefined. |
| HistoryStore.RemoveFirstFacts | src/stores/history.js:34-42 | Only the first record with the id is removed, and the others stay in order. An absent id changes nothing. |
| HistoryStore.DeleteOnlyFirst | src/stores/history.js:35-37 | A later record with the same id survives. |
| HistoryStore.AddedRecordFound | src/stores/history.js:15-47 | A record just added is what `getRecord` finds for its id. |
| HistoryStore.SortedByTime | src/stores/history.js:80-82 | The result is a permutation sorted by descending timestamp. Equal timestamps keep their order. |
| HistoryStore.History.constructor | src/stores/history.js:6-12 | An empty list under the parsed `MAX_RECORDS`. |
| HistoryStore.History.AddRecord | src/stores/history.js:15-31 | The caller's `id` and `timestamp` win over the generated ones. The list is the bounded unshift, and the stored id is returned. |
| HistoryStore.History.DeleteRecord | src/stores/history.js:34-42 | The loop removes the first match. The viewed id is cleared exactly when it was that id and a record was removed. |
| HistoryStore.History.GetRecord | src/stores/history.js:45-47 | The first record in the list with the id, as `find` returns it. The result is undefined exactly when no record has the id. |
| HistoryStore.History.SetCurrentRecord | src/stores/history.js:50-52 | The viewed id is set and the list is kept. |
| HistoryStore.History.ClearRecords | src/stores/history.js:55-58 | Empty list, no viewed id. |
| HistoryStore.History.SetRecords | src/stores/history.js:61-63 | The first `MAX_RECORDS` entries of the input, in order. |
| HistoryStore.History.CurrentRecord | src/stores/history.js:71-73 | Nothing when the viewed id is null or empty. Otherwise exactly `getRecord` of the viewed id, which is found whenever some record has it. |
| HistoryStore.History.HasRecords | src/stores/history.js:75 | True exactly when the list is non-empty. |
| HistoryStore.History.RecordsCount | src/stores/history.js:77 | The list's length. |
| HistoryStore.History.SortedRecords | src/stores/history.js:80-82 | A newest-first, stable permutation of the list. The list itself does not change. |
| ExcelHelpers.SplitTags | src/composables/useExcel.js:91 | The pieces hold no empty tag, no separator `,` `，` `、` and no surrounding whitespace. There are at most one more pieces than separators. |
| ExcelHelpers.CleanPiecesClean | src/composables/useExcel.js:91 | Trimming and dropping empty pieces leaves only clean tags. |
| ExcelHelpers.ParseTag | src/composables/useExcel.js:88-92 | Falsy gives `[]`, an array is returned unchanged, and a string is split into tags. Any other truthy value throws. |
| ExcelHelpers.ParseTagOfJoined | src/composables/useExcel.js:88-92 | Clean tags joined by any separator parse back to exactly those tags, in order. |
| ExcelHelpers.Cell | src/composables/useExcel.js:67-80 | The Chinese column when truthy, else the English key when truthy, else the fallback. |
| ExcelHelpers.CountOfNumber | src/composables/useExcel.js:74-77 | A non-zero numeric count column is taken as it is. |
| ExcelHelpers.CountOfBlank | src/composables/useExcel.js:74-77 | Blank count columns give 0. |
| ExcelHelpers.NormalizeItem | src/composables/useExcel.js:66-82 | A record with field fallbacks and `rawData` set to the item. It fails exactly on a null or undefined item or on an unsplittable tag cell. |
| ExcelHelpers.NormalizeData | src/composables/useExcel.js:65-83 | One record per input, in the same order. A failure is that of the first bad item. |
| ExcelHelpers.NormalizeDataFails | src/composables/useExcel.js:65-83 | The mapping fails exactly when some item fails. |
| ExcelHelpers.ApplyFiltersIsOneFilter | src/composables/useExcel.js:141-171 | The four chained filters are one filter by "every active condition holds". A falsy threshold turns its condition off. |
| ExcelHelpers.SortResults | src/composables/useExcel.js:184-205 | A permutation of a copy. The order is descending by default and for `desc`, and ascending for any other order. Ties are stable. An unknown field keeps the order. |
| ExcelHelpers.AdvancedSearch | src/composables/useExcel.js:140-179 | Exactly the items that satisfy every active filter. They keep their original order when unsorted. Sorted, the result is exactly `SortResults` of the filtered items. |
| ExcelHelpers.SearchKeepsOrder | src/composables/useExcel.js:140-172 | Without `sortBy`, the result is a subsequence of the data. |
| ExcelHelpers.EmptyFiltersKeepAll | src/composables/useExcel.js:144-176 | Filters that are all falsy return the data unchanged. |
| ExcelHelpers.SearchData | src/composables/useExcel.js:118-133 | `[]` without an index or for a blank query. A truthy query that is not a string throws. Otherwise the search hits, with a limit of 10 by default. |
| ExcelHelpers.RandomSelect | src/composables/useExcel.js:210-215 | The data itself when `length ≤ count`. Otherwise `count` elements drawn from the data, as a sub-multiset. |
| ExportHelpers.StripForbiddenClean | src/composables/useExport.js:263 | None of `<>:"/\|?*` and no code point below U+0020 remains. |
| ExportHelpers.StripForbiddenKeepsClean | src/composables/useExport.js:263 | A title with nothing forbidden in it is unchanged. |
| ExportHelpers.CollapseWhitespace | src/composables/useExport.js:264 | No whitespace remains. |
| ExportHelpers.CollapseRun | src/composables/useExport.js:264 | A maximal whitespace run becomes exactly one `-`. |
| ExportHelpers.CollapseNoWhitespace | src/composables/useExport.js:264 | Text without whitespace is unchanged. |
| ExportHelpers.CollapseAllowed | src/composables/useExport.js:263-264 | Collapsing adds no forbidden character. |
| ExportHelpers.CleanTitle | src/composables/useExport.js:262-265 | The result has no forbidden character and no whitespace, and is at most 50 characters long. |
| ExportHelpers.CleanTitleIdempotent | src/composables/useExport.js:262-265 | Cleaning twice is cleaning once. |
| ExportHelpers.ControlCharacterVanishes | src/composables/useExport.js:263-264 | A tab, a newline or any other control character is dropped before whitespace is collapsed, and leaves no `-`. |
| ExportHelpers.Filename | src/composables/useExport.js:260-269 | The clean title, `-`, the first 10 characters of the ISO time, `.html`. |
| ExportHelpers.FormatContent | src/composables/useExport.js:55 | No `\n` remains, and each `\n` adds 3 characters. |
| ExportHelpers.FormatContentAppend | src/composables/useExport.js:55 | The replacement splits over a concatenation. |
| ExportHelpers.FormatContentPlain | src/composables/useExport.js:55 | Text without `\n` is unchanged. |
| ExportHelpers.FormatContentCons | src/composables/useExport.js:55 | Each character is replaced on its own: `\n` becomes `<br>` and anything else is kept. |
| ExportHelpers.RoundedSeconds | src/composables/useExport.js:68 | The nearest whole second, with halves up: `(ms + 500) div 1000`. |
| ExportHelpers.DurationText | src/composables/useExport.js:67-69 | `未知` unless the duration converts to a number greater than 0. A positive number gives its rounded seconds followed by `秒`. |
| ExportHelpers.DurationOfNumericText | src/composables/useExport.js:67-69 | A duration stored as the decimal text of a positive millisecond count shows the same seconds as the number would. |
| Strings.StringToNumberOfIntToString | src/composables/useExport.js:67 | `Number` reads back the decimal text of every integer. |
| Strings.BlankTextIsZero | src/composables/useExport.js:67 | `Number` reads blank text as 0. |
| ExportHelpers.EmptyMetadataDefaults | src/composables/useExport.js:26-28 | Empty metadata gives the ISO time, the text `未知` and the model `claude-sonnet-4.5`. |
| ExportHelpers.ZeroDurationUnknown | src/composables/useExport.js:67-69 | A zero or missing duration shows as `未知`. |
| ExportHelpers.ReplaceTarget | src/composables/useExport.js:55 | `.replace` succeeds exactly on a string. |
| ExportHelpers.Export | src/composables/useExport.js:15-40 | The export fails exactly on null or undefined data, on null or undefined metadata, or on a content or title that is not a string. These are checked in the order the code reads them. Success gives the file name and the page. |
| ExportHelpers.ExportedBodyHasNoNewline | src/composables/useExport.js:55 | An exported body never holds `\n`. |
| ExportHelpers.Exporter.ExportToHTML | src/composables/useExport.js:15-48 | Returns true exactly when the export succeeds. On success `error` is cleared and one download is added. On failure `error` holds the message and nothing is downloaded. `isExporting` is false afterwards. |

## Left out

- Characters: Dafny's `char` is a Unicode scalar value, while JavaScript counts UTF-16 code units. `substring(0, 200)`, `slice(0, 50)` and `slice(0, 10)` therefore differ for text outside the Basic Multilingual Plane. The `\s` class is modelled by a fixed whitespace set.
- Network and timing: the OpenRouter client is a backend oracle. The 1-second delay between attempts is not modelled.
- `simulateStreaming` is a timer-driven display helper, and it is not part of this model.
- `batchGenerate`: the concurrency of `Promise.allSettled` is not modelled; only the mapping of settled outcomes is.
- GenerationClient.AIClient.CallClaudeJSON: answer content that is undefined, or a value other than a string or null, is not representable. The model has only string and null content.
- GenerationClient.AIClient.CallClaude: the intermediate state at the start of a call (`isGenerating` true, `error` null, `retryCount` 0) is set, but it is not visible in the postcondition.
- `temperature` and the other configuration numbers are passed through unchanged.
- Libraries as parameters:
  - `JSON.parse` and `JSON.stringify` are uninterpreted function parameters.
  - The regular expressions are encoded as the rules they implement.
- Numbers: `Num` holds integers only. Fractions, NaN and Infinity are not values of the model, so the truncation `parseInt` applies to a fraction is not modelled either.
- Object key order and inherited prototype members are not modelled. Property reads see own keys, array indices and `length`.
- Orchestrator:
  - The progress and step-complete callbacks are recorded as notices, and they are assumed not to throw.
  - The notices are not restated in the step contracts.
  - The step contracts relate the answers only to the logged requests. The link from a request to the endpoint is stated by the `AIClient` contracts alone.
  - `console.log`, `console.warn` and `console.error` are left out.
- Status strings: any status other than the four known ones is not representable.
- History: `generateId` is an input. Record ids are compared structurally. `currentRecord` maps both null and undefined to `None`.
- useHistory.js and app.js are not part of this model.
- The prompt configurations are used only as the fixed text that `ProfilePromptMissingPersona` needs.
- Spreadsheet:
  - XLSX parsing, `FileReader`, loading progress and the Fuse.js index are left out. The fuzzy search itself is a parameter.
  - `new Date(...).getTime()` is a parameter `timeOf`, and `parseFloat` is a parameter too.
  - `parseInt` is modelled for plain integer text.
  - Search hits are returned as hit records, not spread into the items.
  - `tags.includes` uses structural equality.
- ExcelHelpers.SortResults: a requires demands a sort value for every note. NaN keys, such as an unparsable date, are outside the model.
- ExcelHelpers.AdvancedSearch: the same requires applies to the notes that pass the filters.
- ExcelHelpers.RandomSelect: `count` is an integer; an undefined count is not modelled. The shuffle is any permutation of the data, given as a parameter.
- `DateRange` bounds are integers.
- Export:
  - The HTML template text, `escapeHTML`, `toLocaleString`, the Blob and object-URL download and `copyToClipboard` touch the DOM. They are left out.
  - One `nowIso` stands for both `new Date()` calls.
  - ExportHelpers.DurationText: a string duration counts when `Number` reads it as an integer, with optional sign and surrounding whitespace. Text that spells a fraction, an exponent, a hex number or Infinity is taken as not positive.
  - ExportHelpers.Exporter.ExportToHTML: the `isExporting = true` state during the call is not observable in the postcondition.
- Runtime messages: V8 error texts, such as `Cannot read properties of null (reading 'title')`, are modelled as fixed message functions.
