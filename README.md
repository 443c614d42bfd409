# Auto Gap Detector in Dafny

Auto Gap Detector is a browser extension. It rates how complete Wikipedia articles about
Zambian institutions are and records the gaps it finds. This project models its deterministic
core in Dafny and proves properties of that model. One module corresponds to each source file:

- `Content` (`content.js`, the content script's `GapDetector`):
  - the page extractor, over an abstract document;
  - the keyword classifier (`detectArticleType`, `isRelevantToZambia`);
  - the weighted-checks scorer `performAnalysis` and `generateSuggestions`;
  - the result validator `validateAnalysis`;
  - `saveAnalysis`, which appends to the two bounded logs `detectedGaps` (three entries) and
    `analysisHistory` (`maxHistoryItems`, 100 by default).
- `Nlp` (`nlp.js`): the additive-penalty scorer `analyzeContent`. It starts at 100, subtracts
  5 per missing section, 3 per low-coverage section, 2 per short section and 2 per missing
  reference, then clamps at 0. Also `calculateEntityCoverage`.
- `Repository` (`repository.js`): the wikitext auditor. `calculateCompletenessScore` weighs
  gold-section matches, infobox presence and reference density. `detectGapsAndSuggestions`
  produces index-aligned gap and suggestion lists.
- `Background` (`background.js`), the service worker:
  - the versioned install migration;
  - the fixed-window rate limiter, as the class `ServiceWorker` with the `requestCounts` map
    as its field;
  - the retry loop with linear backoff;
  - the most-recent-first error log capped at 100;
  - the message handler, whose actions are read-modify-write transforms of the storage document.
- `Popup` (`popup/popup.js`): the `PopupController` class with the fields `loadData` and
  `updateSettings` reassign, and the statistics that `updateUI` and `exportData` show.

Supporting modules:

- `Wrappers` defines `Option` and `Outcome`.
- `JsText` defines ASCII `toLowerCase`, `includes`, `trim`, the piece count of `split(/\s+/)`
  and the decimal printing of numbers.
- `JsValue` defines JSON scalar values, truthiness, `||`, `Math.round` and `slice`.
- `Storage` defines the `chrome.storage.local` document: one optional field per top-level
  key, where `None` means the key is not set.

The browser is abstracted in the same way throughout. Storage is a value passed in and
returned. The clock is one reading per operation (milliseconds and ISO text). Storage
failures are a list of fault messages, one for each of the first attempts.

## Model

| member | source | states |
|---|---|---|
| JsText.ToLower | content.js:233 | `toLowerCase` keeps the length and maps every character on its own. |
| JsText.Trim | content.js:201 | `trim()` leaves no whitespace at either end and never lengthens the string. |
| JsText.TrimShape | content.js:218-219 | The trimmed text is the input less leading and trailing whitespace only. |
| JsText.TrimIdempotent | content.js:218-219 | Trimming a trimmed key or value changes nothing. |
| JsText.SplitCount | nlp.js:36 | `split(/\s+/).length` is at least 1, and it is 1 exactly when the text has no whitespace. |
| JsText.NatToStringRoundTrip | content.js:297 | The citation count printed in the gap message reads back as the same number. |
| JsValue.OrElse | content.js:561 | `v \|\| d` is `v` when truthy and `d` otherwise, so in a test it is truthy exactly when one of the operands is. |
| JsValue.Put | background.js:147-153 | Object spread sets one key, or drops it when the value is `undefined`, and leaves every other key alone. |
| JsValue.Round | popup/popup.js:95 | `Math.round(x)` lies within a half of `x`, halves rounded up. |
| JsValue.SliceFrom | background.js:156 | `slice(start)` is always a suffix. A negative start keeps the last `-start` elements, or all when there are fewer. A non-negative start drops the first `start`. |
| JsValue.DivideBounds | popup/popup.js:95 | Dividing by the positive entry count keeps a sum's bounds: scores in [0, 100] average to a value in [0, 100]. |
| JsValue.Ratio | nlp.js:65 | `found / total` lies in [0, 1] and is 1 exactly when all are found. The same share gives the section part of `repository.js` (line 81). |
| Storage.Merge | background.js:47 | `storage.local.set(patch)`: each of the six keys takes the patch's value when the patch holds it and keeps the stored one otherwise. |
| Storage.MergeNothing | background.js:47 | Setting an empty patch changes nothing. |
| Storage.MergeTwice | background.js:47 | Two writes in a row equal one write of both patches with the later winning, and repeating a write changes nothing. |
| Storage.MergeFull | background.js:47 | A patch setting every key replaces the whole document. |
| Content.ExtractPageContent | content.js:190-230 | Sections are the trimmed headings, in order and without de-duplication. Text is the lower-cased body, or `''` without one. Citations are the marker count. The infobox is the map built from its rows, or `{}` without one. |
| Content.TrimHeadings | content.js:200-203 | The headings loop gives one trimmed heading per heading, in page order. |
| Content.BuildInfobox | content.js:218-225 | The rows loop builds exactly `InfoboxOf(rows)`, whose keys and values `InfoboxKeys` and `InfoboxLastRowWins` characterise. |
| Content.InfoboxKeys | content.js:214-225 | A key is in the infobox map exactly when some row of two or more cells has it as its trimmed, lower-cased first cell. |
| Content.InfoboxLastRowWins | content.js:216-224 | Of several rows with the same key, the last one gives the value. |
| Content.DetectArticleType | content.js:237-253 | University when a university keyword occurs in the lower-cased title or text. Otherwise municipal council when a municipal keyword occurs. Otherwise general. Both directions are stated. |
| Content.IsRelevantToZambia | content.js:232-235 | True exactly when one of the twelve Zambian keywords (lines 26-29) occurs in the lower-cased text. |
| Content.MissingSectionsExactly | content.js:272-274 | A required section is reported missing exactly when no heading contains it case-insensitively. |
| Content.MissingEntitiesExactly | content.js:283-285 | A required entity is reported missing exactly when no infobox key contains it. |
| Content.SectionGapsFirst | content.js:271-280 | The gaps open with one high-severity missing-section gap per uncovered section, in template order. |
| Content.EntityGapsNext | content.js:282-291 | Right after them comes one medium-severity missing-entity gap per uncovered entity, in template order. |
| Content.GapCount | content.js:271-300 | There are no other gaps except one high-severity citation gap, which comes last exactly when citations fall below the minimum. |
| Content.ScoreBounds | content.js:302-306 | `round(100 * passed / total)` lies in [0, 100] and is 100 when every check passes. |
| Content.ScoreBelowFullWithGaps | content.js:302-306 | With a gap and fewer than 200 checks, the score stays below 100. |
| Content.ScoreFullIffNoGaps | content.js:302-306 | With fewer than 200 checks, the score lies in [0, 100] and is 100 exactly when no check failed. |
| Content.GapSuggestions | content.js:317-329 | The `forEach` pushes one suggestion per gap, in gap order, chosen by the gap's kind. |
| Content.GenerateSuggestions | content.js:314-341 | One suggestion per gap, in gap order, then the two fixed lines for a university or a municipal council and none for other types. |
| Content.TemplatesWellFormed | content.js:4-21 | Both templates name every section and entity, and each makes thirteen checks. |
| Content.AnalyzeWithTemplate | content.js:265-311 | For a template with named checks: the detected gaps, a score in [0, 100] that is 100 exactly when there are no gaps, and one suggestion per gap followed by exactly the type's advice lines. The result passes `validateAnalysis`. |
| Content.PerformAnalysis | content.js:255-312 | Without a template: score 50, no gaps, one suggestion. With one: the detected gaps, the score from passed over total checks in [0, 100] and 100 exactly when there are no gaps, one suggestion per gap and then the type's two fixed lines. The result always passes `validateAnalysis`. |
| Content.CheckGaps | content.js:524-532 | Passes exactly when every gap from that index on is well-formed. Otherwise it gives the error of the first malformed gap, for a missing field or an unknown severity. |
| Content.ValidateAnalysis | content.js:512-533 | Passes exactly for an object with a numeric score in [0, 100], an array of gaps, truthy type, content and severity, and severity high, medium or low. Each rejection carries the source's message, checked in source order. |
| Content.GapsHaveContent | content.js:276-298 | Every gap the weighted-checks scorer reports names something. |
| Content.GapObjectWellFormed | content.js:276-298 | A gap built by the scorer has all three fields and a known severity. |
| Content.TypedAnalysisValidates | content.js:512-533 | An analysis with a score in [0, 100] and named gaps passes validation. |
| Content.DetectedAnalysisValidates | content.js:265-300 | The detected gaps with any score in [0, 100] form an analysis that passes validation. |
| Content.UnparsedAnswerRejected | content.js:165-178 | The fallback record for an unparseable model answer fails validation with "Invalid score value", so it is never saved. |
| Content.ShiftToBound | content.js:567-576 | `while (length > bound) shift()` leaves a suffix of the log, the newest entries, and only the excess goes. A log within the bound is unchanged, and a longer one keeps exactly `⌊bound⌋` entries. The newest entry stays when the bound is at least 1. A non-numeric bound keeps everything. |
| Content.ShiftKeepsNewest | content.js:567-576 | With a numeric bound, the cut log is the newest `⌊bound⌋` entries. |
| Content.DropOldest | content.js:567-576 | The `shift` loop computes exactly `ShiftToBound`. |
| Content.GapLogKeepsGaps | content.js:564-570 | Appending an entry that has gaps and trimming to three keeps "every entry has a gap". |
| Content.HistoryKeepsScores | content.js:572-576 | Appending an entry with a score in [0, 100] and trimming to any bound keeps every score in [0, 100]. |
| Content.AppendedKeepsInvariants | content.js:564-582 | An entry with gaps leaves `detectedGaps` as the newest three of the old log plus the entry, with the entry last. An entry without gaps leaves that log unchanged. `analysisHistory` becomes the newest `⌊maxHistoryItems⌋` of the old log plus the entry, or all of them for a non-numeric bound. Both log invariants still hold. |
| Content.SaveAnalysis | content.js:535-598 | A missing title or an invalid analysis writes nothing and requests no sync. Otherwise the store is `Appended`: the entry joins `detectedGaps` only when it has gaps (capped at 3), and always joins `analysisHistory` (capped at `maxHistoryItems \|\| 100`). Sync is requested unless the settings say offline. "Every entry has a gap" and "scores lie in [0, 100]" are preserved. |
| Nlp.MissingSections | nlp.js:11-16 | The required sections with no exact case-insensitive title match, and only those. |
| Nlp.FindTemplateSection | nlp.js:20-22 | `find` yields a template section with the same title, or none exactly when no title matches. |
| Nlp.FoundEntities | nlp.js:62-64 | The entities the text mentions case-insensitively, and only those. All are found exactly when each is mentioned. |
| Nlp.EntityCoverage | nlp.js:61-66 | The found fraction lies in [0, 1] and is 1 exactly when every entity is found. An empty list has no ratio (NaN). |
| Nlp.SectionRecords | nlp.js:24-44 | A matched section adds at most two records, both carrying its own title. |
| Nlp.PenaltyCoversRecords | nlp.js:19-45 | Every record of the section loop costs at least 2 points, and no points are charged without a record. |
| Nlp.RawScoreAtMostFull | nlp.js:4-57 | The score is only decreased from 100, so the clamped result lies in [0, 100]. |
| Nlp.CheckSection | nlp.js:24-44 | The coverage check and then the length check give the section's records and its penalty. |
| Nlp.SectionLoopStep | nlp.js:19-45 | One more page section adds its own records and penalty, or none when no template section matches its title. |
| Nlp.MissingLoop | nlp.js:11-16 | The first loop collects exactly the missing sections, in template order. |
| Nlp.SectionLoop | nlp.js:19-45 | The second loop collects exactly the section loop's records, in page order, and its total penalty. |
| Nlp.AnalyzeContent | nlp.js:3-59 | Missing sections in template order. Section records in page order, followed by the references record. The score is 100 less every penalty, clamped to [0, 100], and it is 100 exactly when both lists are empty. |
| Nlp.FullScoreIffNoFindings | nlp.js:4-58 | The clamped score is 100 exactly when nothing is missing and no record is written. |
| Nlp.CompletePageScoresFull | nlp.js:4-58 | A page with every required section, every matched section covered and long enough, and enough references, scores 100. |
| Nlp.NothingMissing | nlp.js:11-16 | When every required title is present, no section is reported missing. |
| Nlp.NoRecordsFromCompleteSections | nlp.js:19-45 | Sections that pass both checks produce no record. |
| Repository.MissingGoldExactly | repository.js:125-127 | A gold section is reported missing exactly when no lower-cased section line contains it. |
| Repository.CoveredCountComplement | repository.js:77-80 | The covered and the missing gold sections together make up the gold list. |
| Repository.NoneMissingIffCovered | repository.js:125-127 | No gold section is missing exactly when every gold section is covered by some line. |
| Repository.SectionScore | repository.js:81 | `100 * matched / total` lies in [0, 100] and is 100 exactly when every gold section matched. |
| Repository.RefScore | repository.js:89-90 | The capped reference score lies in [0, 100] and is 100 exactly at one reference per hundred words or more. |
| Repository.Density | repository.js:89-90 | Before capping, the score is `refs * 10000 / wordCount`. |
| Repository.FinalScore | repository.js:83-92 | The weighted, rounded score lies in [0, 100], with the exact condition for 100. |
| Repository.MatchedCount | repository.js:77-80 | The counter ends at the number of covered gold sections, and equals the list length exactly when every gold section is covered. |
| Repository.CalculateCompletenessScore | repository.js:59-98 | No `parse` field, or a throwing wikitext read, gives 0. Otherwise the weighted formula of section matches, infobox and reference density applies. The score always lies in [0, 100]. |
| Repository.FullMarks | repository.js:77-92 | A page with every gold section, an infobox and at least one reference per hundred words scores 100. |
| Repository.AnswersSection | repository.js:128-133 | The suggestion for a missing section answers its gap line. |
| Repository.AlignedConcat | repository.js:135-143 | Appending aligned pairs keeps the lists aligned. |
| Repository.SectionPairs | repository.js:125-134 | One gap line per missing section, in gold order, each aligned with its suggestion. |
| Repository.DetectGapsAndSuggestions | repository.js:113-145 | Equal-length, index-aligned lists. First the missing-section pairs in gold order. Then the infobox pair exactly when the infobox test fails. Then the references pair exactly when there are fewer than 5 references. Nothing when the wikitext read throws. |
| Repository.SectionScoreFullIffNoMissingSection | repository.js:77-81 | The section part of the score is 100 exactly when the gap report names no missing section. |
| Background.OnInstalled | background.js:31-58 | The version loop applies every migration from the stored version up and writes the merge back. Current data is untouched. |
| Background.InstallKeepsLists | background.js:34-50 | Data below version 1 becomes the default state and keeps its repository, history and detected gaps, each defaulting to `[]`. |
| Background.InstallEmpty | background.js:31-58 | An empty store becomes `DEFAULT_STATE` (lines 2-15). |
| Background.InstallIdempotent | background.js:31-58 | Running the install handler again changes nothing. |
| Background.RateLimitFor | background.js:61-64 | Only `log_gap` (5 per second) and `get_repository` (2 per second) are limited, each with a positive window. |
| Background.RunChecks | background.js:73-86 | A series of checks gives one decision per request. |
| Background.FixedWindow | background.js:73-86 | Within one window, the first requests up to the limit are allowed and counted, and later ones are rejected without counting. No other key changes. |
| Background.UnlimitedRuns | background.js:73-76 | An action without a limit is always allowed and never touches the counts. |
| Background.RetryOutcomeOf | background.js:89-98 | The first success is returned. Otherwise the last attempt's error is rethrown. |
| Background.BackoffTotal | background.js:89-98 | `n` waits add up to `500 * n * (n + 1)` ms. |
| Background.RetryOperation | background.js:89-98 | At most `attempts` calls. It ends with `RetryOutcomeOf`. A wait follows each failed attempt except the last. |
| Background.LogError | background.js:101-116 | The new entry goes in front and the log is cut to at most 100. |
| JsValue.Reverse | popup/popup.js:114 | `reverse()` puts entry `i` from the end at index `i`. |
| Background.TakeOfTake | background.js:105-114 | Capping before and after the next unshift gives the same log. |
| Background.LogMostRecentFirst | background.js:101-116 | After any series of errors the log holds the newest 100, most recent first. |
| Background.ServiceWorker.constructor | background.js:66 | The counts start empty. |
| Background.ServiceWorker.CheckRateLimit | background.js:73-86 | The field `requestCounts` changes exactly as `RateCheck` says: within one window the first requests up to the limit pass and are counted, later ones are rejected (`FixedWindow`), and unlimited actions pass untouched (`UnlimitedRuns`). |
| Background.ServiceWorker.HandleMessage | background.js:123-230 | The rate limit comes first: a rejection answers "Rate limit exceeded" with the window and writes nothing. Otherwise the answer and the new storage are those of `Dispatch`: the action's transform under the retry loop, a logged error with `retryAfter` 1000 on failure, and "Unknown action" for an unknown action. |
| Background.MissingSettingsIsLogged | background.js:144-205 | With no settings in storage, the settings-reading actions throw on every attempt and end in a logged error. |
| Background.UnknownActionRejected | background.js:221-226 | Unknown actions, `log_error` among them, use no rate-limit slot and get "Unknown action" without a retry hint. The content script sends `log_error` from `content.js` lines 602-613. |
| Background.ToggleFlips | background.js:173-185 | Toggling flips the mode, sets `lastSync` only when leaving offline mode, and keeps every other key. Toggling twice restores the mode. |
| Background.LogGapKeepsNewest | background.js:144-160 | `log_gap` appends and keeps the newest `maxHistoryItems` records. With 0 or no numeric limit it keeps all, and it changes nothing but the repository. |
| Background.NewGapFields | background.js:147-153 | The new record carries the time, the sender URL when there is one, the offline flag, and every other field of the request data. |
| Background.SyncWritesOnlyLastSync | background.js:187-205 | Offline: the sync error and no write. Online: success, and only `lastSync` changes. |
| Popup.GapItemsAtLeastEntries | popup/popup.js:93 | When every detected-gaps entry has a gap, there are at least as many gap items as entries. |
| Popup.SumScoresBounds | popup/popup.js:95 | Scores in [0, 100] sum to between 0 and 100 per entry. |
| Popup.AverageScore | popup/popup.js:94-96 | 0 for an empty history, and in [0, 100] when every score is. |
| Popup.RecentGaps | popup/popup.js:114 | At most three entries, the most recent first. |
| Popup.ScoreClassMonotone | popup/popup.js:118 | High from 80, low below 60, and a higher score never gets a lower class. |
| Popup.HighPriorityCount | popup/popup.js:117 | The count of high-severity gaps: 0 exactly when there is none, and all exactly when every gap is high. |
| Popup.MergeSettings | popup/popup.js:47-51 | Stored keys override, current keys fill in, and no other key appears. |
| Popup.FormSettings | popup/popup.js:198-202 | The form's settings have exactly the three checkbox keys. |
| Popup.PopupController.constructor | popup/popup.js:7-17 | Empty lists and the three default settings. |
| Popup.PopupController.LoadData | popup/popup.js:36-56 | Missing lists become `[]`, and the stored settings are merged over the current ones. |
| Popup.PopupController.UpdateSettings | popup/popup.js:196-212 | The settings become exactly the three checkbox values and are stored as they are. The logs are untouched. |
| Popup.PopupController.Summary | popup/popup.js:221-228 | `totalGaps` and `pagesAnalyzed` are the log lengths. `totalGapItems` is at least `totalGaps` when every entry has a gap. The average lies in [0, 100], or is 0 when there is no history. |
| Popup.FormSettingsDropLimits | popup/popup.js:198-206 | After the form is saved, `log_gap` keeps the whole repository and records no offline flag, and `saveAnalysis` falls back to a bound of 100 (`background.js` lines 144-158, `content.js` line 561). |

## Left out

- DOM and UI are not modelled: the panel, tooltips, highlighting, `findInsertionPoint`, guideline pop-ups, the popup's DOM, message display and the export download. They are presentation over browser APIs.
- The hosted-model path (`callHuggingFaceAPI` and the model branch of `analyzeCurrentPage`) is a network call. Only its fallback record is modelled (`Content.UnparsedModelAnswer`).
- Network fetches are not modelled: `wikipediaPageExists`, `fetchPageContent`, the fetch half of `calculateCompletenessScore`, and the page render loop of `repository.js`. The parse response is an input.
- `templates.js` (`loadTemplate`) is not part of this model. The template is an input of `Nlp.AnalyzeContent`.
- The reference-counting and markup-stripping regular expressions of `repository.js` are not modelled. The reference count and the word count are inputs. The infobox test is a case-insensitive substring check.
- `Repository.SectionLines` takes every section to have a `line`. A section without one makes the source throw.
- `chrome.storage`, `sendMessage`/`sendResponse` and async/await are replaced by a storage value passed in and returned. Each message sees one clock reading.
- `Background.ServiceWorker.CheckRateLimit`: the `setTimeout` that deletes a count after its window is not modelled. It only removes keys of windows that have ended, which no later decision reads.
- `Background.RetryOperation`: returns the backoff waits as a schedule instead of sleeping.
- Concurrency is not modelled. Races between overlapping read-modify-write handlers are outside the model; each message is handled atomically.
- Floating point is replaced by exact rationals with `round(x) = floor(x + 1/2)`. Results can differ from IEEE arithmetic only at exact halves. NaN is represented as `None` in three places: the empty-list entity coverage (`Nlp.EntityCoverage`), `JsValue.ToNumber` of `undefined` or a non-empty string (the `log_gap` slice start, `Background.HistorySliceStart`), and a string history bound (`Content.HistoryBound`). Non-empty numeric strings are read as NaN as well.
- `toLowerCase` maps ASCII letters only. Other characters are kept as they are.
- Stack traces in error logs and in `log_error` messages are not modelled.
- The "fresh install" branch of `onInstalled` is unreachable: an empty store has version 0, so the migration branch runs first. It is not modelled separately.
- `logError` failures (its own `catch`) and the outer `catch` of the message listener (`message_handler`) are not modelled. Every modelled storage failure is a retried attempt fault.
- Gap elements of an analysis are modelled as objects (`Storage.RawGap`). A `null` or `undefined` element makes the source throw a TypeError at `gap.type` instead of returning "Invalid gap object at index i"; the analysis is rejected either way, but that message is not modelled.
- A `request.data` that is not an object is not modelled. The data is an object, with absence read as empty.
- Content.PerformAnalysis: "score is 100 exactly when there are no gaps" holds for the two templates (13 checks). `Content.ScoreBelowFullWithGaps` states it for fewer than 200 checks, because from 200 checks on a single gap rounds up to 100.
- Content.SaveAnalysis: requires a non-negative numeric history bound when the title and the analysis are valid. With a negative `maxHistoryItems` the source's `shift` loop never ends on an empty list.
