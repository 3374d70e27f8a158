# Tally form-response pipeline, modelled in Dafny

This project models the pipeline the workshop site uses for the responses to its Tally
registration form:

- **Fetching** (`apps/web/src/lib/tally.ts`). The submissions API is read page by page. Each
  raw answer becomes a normalised answer: a key, a label, a type and a value coerced to a
  string, number, boolean, string list or null.
- **Analytics** (`apps/web/src/lib/tally-analytics.ts`). Answers are folded into one
  accumulator per question. These produce choice counts, yes/no counts, numeric values and
  text samples. They are then finalised into insights sorted by label, with top choices,
  percentages and a numeric summary.
- **Persisting** (`apps/web/src/lib/persist-tally.ts` and `packages/backend/convex/tally.ts`).
  Responses are serialised and handed to the Convex mutation `syncSubmissions`. It inserts,
  patches or skips one submission document per form and Tally id, and replaces that document's
  answer rows. The same module has three more handlers:
  - `getRecentSummaries`, the newest documents with their answers;
  - `getAllAnswersForChat`, one entry per stored answer;
  - `clearAllTallyData`, which deletes a form's documents and their answers.
- **The AI commentary** (`apps/web/src/lib/tally-summary.ts`). This is the projection of the
  insights given to the model, and the fallback texts around the call.
- **Two reporting routes** (`apps/web/src/app/api/tally-questions/route.ts` and
  `apps/web/src/app/api/tally-debug/route.ts`). Each counts how often each question was
  answered, one from live responses and one from stored summaries.

The modules follow the files:

| module | file |
|---|---|
| `TallyClient` | `tally_client.dfy` |
| `TallyAnalytics`, `OrderedCounts`, `TallyInsights`, `TallyAggregate` | the analytics |
| `ConvexTables`, `ConvexTally` | the Convex tables and handlers |
| `PersistTally` | the persisting |
| `TallySummary` | the commentary |
| `QuestionReports` | both routes |

`JsRuntime`, `Sorting` and `Wrappers` hold what these share:
- the JavaScript string operations used;
- a stable insertion sort standing in for `Array.prototype.sort`;
- `Option` and `Result`.

Code that updates state in place is modelled imperatively, each method proved against a
specification function:
- The question accumulator (`TallyAnalytics.QuestionAccumulator`) is a class whose
  `HandleAnswer` updates its fields.
- The Convex deployment (`ConvexTally.TallyStore`) is a class holding the two tables and the
  id counter. Its handlers are methods with the source's loops.
- The routes' question map (`QuestionReports.QuestionMap`) is a class, filled by nested loops.

The rest is functions and lemmas.

The Convex tables are maps from document ids to rows (`packages/backend/convex/schema.ts:24-44`).
Ids come from a counter, and scans return ids in creation order. `Valid` states that every id
is below the counter. `UniqueKeys` states that there is at most one submission document per
form and Tally id.

## Model

| member | source | states |
|---|---|---|
| `TallyClient.ExtractQuestionMetadata` | apps/web/src/lib/tally.ts:87-101 | A missing question gives "Unknown question" and "text". Otherwise the label is the first field's title, else the question's title, else its id. The type is the first field's type, else the question's type, else "text". |
| `TallyClient.CoerceList` | apps/web/src/lib/tally.ts:134-156 | The coerced list is no longer than the raw array and holds no empty string. |
| `TallyClient.CoerceListAppend` | apps/web/src/lib/tally.ts:134-156 | Coercing an array works element by element: it distributes over concatenation. |
| `TallyClient.CoerceValue` | apps/web/src/lib/tally.ts:125-173 | The result is null exactly for a null raw value. It is a list exactly for an array, with no more items than the array and none empty. |
| `TallyClient.CoerceListOfStrings` | apps/web/src/lib/tally.ts:134-156 | An array of non-empty strings is coerced to the same strings. |
| `TallyClient.CoerceValueRoundTrip` | apps/web/src/lib/tally.ts:125-173 | Coercing the JSON form of any coerced value gives that value back. |
| `TallyClient.RawValue` | apps/web/src/lib/tally.ts:114 | The raw value is `answer` unless that is nullish, then `value`, then null. |
| `TallyClient.NormalizeAnswer` | apps/web/src/lib/tally.ts:103-123 | An answer is produced exactly when `questionId ?? id` is present and non-empty, with that key. It carries the question's metadata and the coerced raw value. |
| `TallyClient.NormalizeAnswers` | apps/web/src/lib/tally.ts:179-182 | The filtered answers are no more than the responses, and every key is non-empty. |
| `TallyClient.NamedResponses` | apps/web/src/lib/tally.ts:107-111 | The responses kept are exactly those whose `questionId ?? id` is non-empty. |
| `TallyClient.NormalizeAnswersSpec` | apps/web/src/lib/tally.ts:179-182 | For any responses there is one answer per response with a key, in order, and it is that response's normalised answer. Exactly the keyless responses are dropped. |
| `TallyClient.NormalizeAnswersKeyed` | apps/web/src/lib/tally.ts:179-182 | When every response has a question id, there is one answer per response, in order. Each is keyed by that id and carries the looked-up metadata and the coerced value. |
| `TallyClient.NormalizeSubmission` | apps/web/src/lib/tally.ts:175-191 | The id, form id and completion flag are kept. The time is `submittedAt`, else `updatedAt`, else `createdAt`, and is absent only when all three are. The answers are the normalised responses, or none when there are no responses. |
| `TallyClient.NormalizeAll` | apps/web/src/lib/tally.ts:257-259 | One normalised response per submission. |
| `TallyClient.ApiErrorOf` | apps/web/src/lib/tally.ts:193-208 | A failed page becomes a `TallyApiError` carrying the response's status. |
| `TallyClient.MergeQuestions` | apps/web/src/lib/tally.ts:253-255 | Merging a page's questions removes no key. |
| `TallyClient.MergeQuestionsLookup` | apps/web/src/lib/tally.ts:253-255 | After the merge, an id is known iff it was known or is on the page. It maps to its last occurrence on the page, or to the old entry when absent from the page. |
| `TallyClient.AfterPage` | apps/web/src/lib/tally.ts:251-259 | A page only appends results and only adds questions. |
| `TallyClient.ProgressBeforeGrows` | apps/web/src/lib/tally.ts:226-266 | After n successful pages there are as many results as those pages have submissions. Earlier results are prefixes of later ones. |
| `TallyClient.FetchFormResponses` | apps/web/src/lib/tally.ts:215-269 | A missing or empty key fails with the configuration error before any request. Otherwise the pages are requested in order from the start page (default 1) for the resolved form id. The first failed page gives its API error. Otherwise the result is every submission of every page, normalised against the questions seen so far. |
| `TallyAnalytics.TypeClassification` | apps/web/src/lib/tally-analytics.ts:51-59 | A type is a choice or numeric type iff its lower-cased text contains one of the listed words. Lower-casing first changes nothing. |
| `TallyAnalytics.NormalizePercentage` | apps/web/src/lib/tally-analytics.ts:222-228 | A non-positive total gives 0. Otherwise the result is count/total×100 rounded to one decimal, within 0.05, and non-negative for a non-negative count. |
| `TallyAnalytics.QuestionAccumulator.constructor` | apps/web/src/lib/tally-analytics.ts:194-204 | A new accumulator has the first answer's label and type, no responses and empty counts. |
| `TallyAnalytics.QuestionAccumulator.HandleAnswer` | apps/web/src/lib/tally-analytics.ts:61-121 | The accumulator's new state is `Handled` of the old state and the value. |
| `TallyAnalytics.HandledFrame` | apps/web/src/lib/tally-analytics.ts:61-121 | Every answer counts as a response. A number appends to the numeric values. A boolean bumps "Yes" or "No". A list counts its entries as choices. Nothing else changes. |
| `TallyAnalytics.HandledTextFrame` | apps/web/src/lib/tally-analytics.ts:94-120 | Text either becomes one numeric value or leaves the numbers alone. It never touches the response or boolean counts. |
| `TallyAnalytics.CountChoicesConsistent` | apps/web/src/lib/tally-analytics.ts:82-91 | Counting list entries keeps the counts keyed by distinct, non-empty, trimmed values. |
| `TallyAnalytics.CountChoicesGet` | apps/web/src/lib/tally-analytics.ts:82-91 | A value's choice count grows by its number of occurrences in the list; the empty string's does not grow. |
| `TallyAnalytics.TextChoice` | apps/web/src/lib/tally-analytics.ts:94-120 | A text answer adds one to the count of its trimmed text exactly when that text is non-empty, not numeric, and the type is a choice type. |
| `TallyAnalytics.BooleansConsistent` | apps/web/src/lib/tally-analytics.ts:75-80 | A boolean adds one to the yes/no total. The only keys are "Yes" and "No". |
| `TallyAnalytics.TextSampledConsistent` | apps/web/src/lib/tally-analytics.ts:112-119 | A non-numeric trimmed text keeps the accumulator consistent. |
| `TallyAnalytics.TextConsistent` | apps/web/src/lib/tally-analytics.ts:94-120 | Any text answer keeps the accumulator consistent. |
| `TallyAnalytics.ScalarConsistent` | apps/web/src/lib/tally-analytics.ts:66-73 | Null and number answers keep the accumulator consistent. |
| `TallyAnalytics.FlagConsistent` | apps/web/src/lib/tally-analytics.ts:75-80 | Boolean answers keep the accumulator consistent. |
| `TallyAnalytics.ListConsistent` | apps/web/src/lib/tally-analytics.ts:82-92 | List answers keep the accumulator consistent. |
| `TallyAnalytics.HandledConsistent` | apps/web/src/lib/tally-analytics.ts:61-121 | Handling any answer preserves consistency. Consistency means: distinct positive counts; yes/no plus numeric values never exceeding the responses; at most three trimmed non-empty samples. |
| `TallyAnalytics.HandledAllConsistent` | apps/web/src/lib/tally-analytics.ts:61-121 | Consistency is preserved over any sequence of answers. |
| `TallyAnalytics.NewStateConsistent` | apps/web/src/lib/tally-analytics.ts:194-204 | A new accumulator is consistent. |
| `TallyAnalytics.HandledAllCounts` | apps/web/src/lib/tally-analytics.ts:64 | Each answer adds one response. The label and type never change. |
| `TallyAnalytics.HandledAllBooleans` | apps/web/src/lib/tally-analytics.ts:75-80 | The "Yes" and "No" counts equal the number of true and false answers. No other key is counted. |
| `TallyAnalytics.HandledAllSamples` | apps/web/src/lib/tally-analytics.ts:112-114 | The samples are the first three text candidates, in answer order. |
| `OrderedCounts.Values` | apps/web/src/lib/tally-analytics.ts:17 | The values of a count map, in insertion order. |
| `OrderedCounts.IncrementGet` | apps/web/src/lib/tally-analytics.ts:88-89 | `set(v, (get(v) ?? 0) + 1)` raises the count of v by one and no other count. |
| `OrderedCounts.IncrementValues` | apps/web/src/lib/tally-analytics.ts:88-89 | A new value is appended to the insertion order. An existing one keeps its place. |
| `OrderedCounts.IncrementValid` | apps/web/src/lib/tally-analytics.ts:88-89 | Incrementing keeps the keys distinct and the counts positive. |
| `OrderedCounts.TotalIncrement` | apps/web/src/lib/tally-analytics.ts:88-89 | Incrementing adds one to the total. |
| `OrderedCounts.GetOfEntry` | apps/web/src/lib/tally-analytics.ts:88 | Looking up an entry's value gives its count. |
| `OrderedCounts.GetAbsent` | apps/web/src/lib/tally-analytics.ts:88 | An absent value reads as 0 (`?? 0`). |
| `OrderedCounts.GetAtMostTotal` | apps/web/src/lib/tally-analytics.ts:88 | No count exceeds the total. |
| `TallyInsights.Statistics` | apps/web/src/lib/tally-analytics.ts:127-132 | One statistic per count entry. |
| `TallyInsights.ByCountTotal` | apps/web/src/lib/tally-analytics.ts:133 | "Larger count first" is a total preorder. |
| `TallyInsights.NonEmpty` | apps/web/src/lib/tally-analytics.ts:161-164 | A list is reported exactly when it is non-empty, unchanged. |
| `TallyInsights.Extremes` | apps/web/src/lib/tally-analytics.ts:151-152 | `Math.min` and `Math.max` are values of the list that bound all of it. |
| `TallyInsights.SummaryBounds` | apps/web/src/lib/tally-analytics.ts:144-154 | The summary is absent iff there are no values. Its min and max are values bounding all others. The rounded average lies within 0.005 of [min, max]. |
| `TallyInsights.FinalizedParts` | apps/web/src/lib/tally-analytics.ts:156-165 | An insight carries the key, label, type and response count. Each optional part is absent iff its source is empty. The samples are passed through. |
| `TallyInsights.TopChoices` | apps/web/src/lib/tally-analytics.ts:127-134 | There are exactly min(5, number of counted values) top choices, drawn without repetition from the statistics, in non-increasing count. No value left out has a larger count than one kept. |
| `TallyInsights.TopFromCounts` | apps/web/src/lib/tally-analytics.ts:127-134 | Each top choice is the statistic of a counted value. |
| `TallyInsights.TopMaximal` | apps/web/src/lib/tally-analytics.ts:133-134 | No counted value cut from the top five has a larger count than one kept. |
| `TallyInsights.BooleanBreakdown` | apps/web/src/lib/tally-analytics.ts:136-142 | The breakdown is every yes/no statistic, sorted by count (a permutation). |
| `TallyInsights.FinalizedAll` | apps/web/src/lib/tally-analytics.ts:126-166 | One insight per key. |
| `TallyInsights.BuildInsightsMembers` | apps/web/src/lib/tally-analytics.ts:123-169 | There are exactly as many insights as keys, and an insight is in the result iff it is its key's finalised accumulator. |
| `TallyInsights.BuildInsightsSound` | apps/web/src/lib/tally-analytics.ts:123-169 | Every insight is a key's finalised accumulator. |
| `TallyInsights.BuildInsightsComplete` | apps/web/src/lib/tally-analytics.ts:123-169 | Every key's finalised accumulator is an insight. |
| `TallyInsights.BuildInsightsSorted` | apps/web/src/lib/tally-analytics.ts:168 | Insights are ordered by `localeCompare` of their labels, given a total collation. |
| `TallyAggregate.BuildQuestionInsights` | apps/web/src/lib/tally-analytics.ts:123-169 | The loop over the accumulator map produces `BuildInsights` of the keys and their states. |
| `TallyAggregate.AbsorbAnswer` | apps/web/src/lib/tally-analytics.ts:188-207 | One pass of the inner loop leaves the keys and states equal to `Absorb` of the old ones. It keeps distinct accumulators and reuses or creates them. |
| `TallyAggregate.AbsorbAnswers` | apps/web/src/lib/tally-analytics.ts:187-208 | The inner loop over a response's answers leaves `AbsorbAll` of the old keys and states. |
| `TallyAggregate.AccumulateResponses` | apps/web/src/lib/tally-analytics.ts:176-209 | The outer loop yields the completed count, the latest submission time, and the accumulators of all answers. |
| `TallyAggregate.AggregateTallyResponses` | apps/web/src/lib/tally-analytics.ts:171-220 | The result equals `Aggregated` of the responses. |
| `TallyAggregate.AbsorbAllAppend` | apps/web/src/lib/tally-analytics.ts:176-209 | Folding answers distributes over concatenation. |
| `TallyAggregate.AbsorbAllKeys` | apps/web/src/lib/tally-analytics.ts:188-207 | A question is accumulated iff some answer has its key and the key is not excluded. The key order only grows. |
| `TallyAggregate.AbsorbStateAt` | apps/web/src/lib/tally-analytics.ts:188-207 | An answer touches only its own key's state: a new accumulator from its label and type, or the existing one, handed the value. Excluded keys are skipped. |
| `TallyAggregate.FirstWithKeySpec` | apps/web/src/lib/tally-analytics.ts:194-204 | The first answer with a key exists iff some answer has it, and no earlier answer has the key. |
| `TallyAggregate.AbsorbAllState` | apps/web/src/lib/tally-analytics.ts:187-208 | A question's accumulator is created from its first answer's label and type, then fed every value with that key in order. |
| `TallyAggregate.StateAfterFirstAnswer` | apps/web/src/lib/tally-analytics.ts:194-206 | The first answer with a key starts its accumulator. |
| `TallyAggregate.StateAfterLaterAnswer` | apps/web/src/lib/tally-analytics.ts:194-206 | A later answer feeds the existing accumulator. |
| `TallyAggregate.NoValuesWithoutKey` | apps/web/src/lib/tally-analytics.ts:187-208 | Without answers for a key there are no values for it. |
| `TallyAggregate.QuestionStatistics` | apps/web/src/lib/tally-analytics.ts:187-208 | Every accumulated question is non-excluded. It has its first answer's label and type, counts exactly its answers, and is consistent. |
| `TallyAggregate.CompletedCount` | apps/web/src/lib/tally-analytics.ts:177-179 | Completed submissions never exceed all submissions. |
| `TallyAggregate.LatestSubmitted` | apps/web/src/lib/tally-analytics.ts:181-185 | The kept time is non-empty. |
| `TallyAggregate.LatestSubmittedIsOne` | apps/web/src/lib/tally-analytics.ts:181-185 | `lastSubmittedAt` is absent iff no response has a time. Otherwise it is one of the responses' times. |
| `TallyAggregate.LatestSubmittedIsLatest` | apps/web/src/lib/tally-analytics.ts:181-185 | When every time parses, the kept time is the latest. |
| `TallyAggregate.UnparsedDateSticks` | apps/web/src/lib/tally-analytics.ts:182 | A first time that does not parse is never replaced, since every later comparison with NaN is false. |
| `TallyAggregate.AggregatedQuestions` | apps/web/src/lib/tally-analytics.ts:171-220 | The totals count the responses, and completed ≤ submissions. `questionCount` is the number of questions. There is one question per distinct non-excluded key, each its key's finalised accumulator. |
| `TallyAggregate.DistinctKeysCount` | apps/web/src/lib/tally-analytics.ts:216 | `questionMap.size` equals the number of keys in insertion order. |
| `Sorting.SortBy` | apps/web/src/lib/tally-analytics.ts:133 | Sorting permutes its input. |
| `Sorting.TiedWith` | apps/web/src/lib/tally-analytics.ts:133 | Picks out exactly the elements the comparator ranks equal to a given one, in order. |
| `Sorting.InsertTies` | apps/web/src/lib/tally-analytics.ts:133 | An inserted element goes after every element it ties with. |
| `Sorting.SortByStable` | apps/web/src/lib/tally-analytics.ts:133 | For a total preorder, sorting is stable: elements the comparator ranks equal keep their input order. |
| `Sorting.SortBySorted` | apps/web/src/lib/tally-analytics.ts:133 | For a total preorder, the result is sorted. |
| `Sorting.InSortBy` | apps/web/src/lib/tally-analytics.ts:133 | Sorting keeps exactly the same elements. |
| `Sorting.Take` | apps/web/src/lib/tally-analytics.ts:134 | `slice(0, n)` is a prefix of length min(n, length). |
| `Sorting.TakeDrawn` | apps/web/src/lib/tally-analytics.ts:134 | `slice(0, n)` takes each element no more often than it occurs. |
| `JsRuntime.TrimSpec` | apps/web/src/lib/tally-analytics.ts:95 | `trim` is a no-longer infix with no whitespace at either end. |
| `JsRuntime.TrimKeepsInner` | apps/web/src/lib/tally-analytics.ts:95 | `trim` leaves a string without surrounding whitespace unchanged. |
| `JsRuntime.TrimIdempotent` | apps/web/src/lib/tally-analytics.ts:95 | `trim` is idempotent. |
| `JsRuntime.ToLowerChars` | apps/web/src/lib/tally-analytics.ts:52 | `toLowerCase` maps character by character. |
| `JsRuntime.ToLowerIdempotent` | apps/web/src/lib/tally-analytics.ts:52 | `toLowerCase` is idempotent. |
| `JsRuntime.ContainsAt` | apps/web/src/lib/tally-analytics.ts:53 | `includes` holds iff the word occurs at some position. |
| `JsRuntime.ToFixed1` | apps/web/src/lib/tally-analytics.ts:227 | `Number(x.toFixed(1))` is within 0.05 of x, and non-negative for non-negative x. |
| `JsRuntime.ToFixed2` | apps/web/src/lib/tally-analytics.ts:149 | `Number(x.toFixed(2))` is within 0.005 of x, and non-negative for non-negative x. |
| `ConvexTables.Ascending` | packages/backend/convex/tally.ts:36-41 | A scan lists only documents that pass its filter. |
| `ConvexTables.AscendingSpec` | packages/backend/convex/tally.ts:36-41 | A scan lists exactly the documents passing the filter, in increasing id order. |
| `ConvexTables.AscendingNone` | packages/backend/convex/tally.ts:36-41 | A scan with no match is empty. |
| `ConvexTables.AnswersOf` | packages/backend/convex/tally.ts:127-130 | A document's answers are one row per id of its `by_submission` scan. |
| `ConvexTables.FormSubmissionIds` | packages/backend/convex/tally.ts:118-122 | The form scan lists only the form's documents. |
| `ConvexTables.Reverse` | packages/backend/convex/tally.ts:120 | `order("desc")` reverses the scan. |
| `ConvexTables.NewestFirst` | packages/backend/convex/tally.ts:118-122 | The descending `by_form_synced` scan lists only the form's documents. |
| `ConvexTables.SortedScanInForm` | packages/backend/convex/tally.ts:118-122 | The sorted scan stays within the form. |
| `ConvexTables.NewestFirstSpec` | packages/backend/convex/tally.ts:118-122 | The descending scan lists exactly the form's documents, in non-increasing `syncedAt`. |
| `ConvexTables.NewestFirstComplete` | packages/backend/convex/tally.ts:118-122 | Every document of the form is in the descending scan. |
| `ConvexTables.NewestFirstDistinct` | packages/backend/convex/tally.ts:118-122 | The descending scan lists each document once. |
| `ConvexTables.OldestFirstSpec` | packages/backend/convex/tally.ts:188-191 | The `by_form_synced` scan lists exactly the form's documents, once each, oldest first. |
| `ConvexTables.KeyScan` | packages/backend/convex/tally.ts:36-41 | The `by_form_submission` scan lists only documents with that key. |
| `ConvexTables.RowsOf` | packages/backend/convex/tally.ts:87-99 | One answer row per incoming answer, in order, referring to the document. |
| `ConvexTables.InsertAnswers` | packages/backend/convex/tally.ts:87-99 | Inserting answers leaves the submissions alone and uses one id per answer. |
| `ConvexTables.InsertAnswersSpec` | packages/backend/convex/tally.ts:87-99 | Inserting keeps every existing answer, adds exactly the fresh ids, and keeps `Valid`. |
| `ConvexTables.InsertedRows` | packages/backend/convex/tally.ts:87-99 | The k-th fresh id holds the k-th incoming answer. |
| `ConvexTables.DropAnswersOf` | packages/backend/convex/tally.ts:74-80 | Deleting a document's answers removes exactly the answers that refer to it. |
| `ConvexTables.ReplacedAnswers` | packages/backend/convex/tally.ts:72-99 | After deleting and reinserting, the document's answers are exactly the incoming ones, in order. |
| `ConvexTables.InsertedAnswersOf` | packages/backend/convex/tally.ts:87-99 | A document without answers gets exactly the inserted ones. |
| `ConvexTables.OtherAnswersKept` | packages/backend/convex/tally.ts:72-99 | Replacing one document's answers leaves every other document's answers alone. |
| `ConvexTables.InsertKeepsOthers` | packages/backend/convex/tally.ts:87-99 | Inserting one document's answers leaves every other document's answers alone. |
| `ConvexTally.FindAnswerFirst` | packages/backend/convex/tally.ts:47-51 | `answers.find` gives nothing iff no answer has the id, and otherwise the first one with it. |
| `ConvexTally.LookupRow` | packages/backend/convex/tally.ts:36-41 | A found document has the key. |
| `ConvexTally.LookupSpec` | packages/backend/convex/tally.ts:36-41 | `.unique()` finds nothing iff no document has the key, the only one when one has it, and throws iff two have it. |
| `ConvexTally.PatchedSpec` | packages/backend/convex/tally.ts:72-81 | A patch replaces the row and the document's answers and keeps `Valid`. |
| `ConvexTally.PatchedKeepsOthers` | packages/backend/convex/tally.ts:72-81 | A patch leaves other documents' answers alone. |
| `ConvexTally.CreatedSpec` | packages/backend/convex/tally.ts:82-99 | An insert adds the row under a fresh id with exactly the incoming answers. |
| `ConvexTally.CreatedKeepsOthers` | packages/backend/convex/tally.ts:82-99 | An insert leaves existing documents' answers alone. |
| `ConvexTally.SyncOneSucceeds` | packages/backend/convex/tally.ts:36-41 | With one document per key, one pass never throws. |
| `ConvexTally.UniqueReplaced` | packages/backend/convex/tally.ts:72-73 | A patch with the same key keeps one document per key. |
| `ConvexTally.UniqueAdded` | packages/backend/convex/tally.ts:82-85 | An insert under an unused key keeps one document per key. |
| `ConvexTally.SyncOneKeepsInvariants` | packages/backend/convex/tally.ts:35-100 | One pass keeps `Valid` and one document per key. |
| `ConvexTally.SyncOneTables` | packages/backend/convex/tally.ts:35-100 | A pass skips exactly a stored document that matches on time and completion and has a respondent field, and then writes nothing. It inserts exactly when no document has the key. Otherwise it writes the payload to the target document and replaces its answers with the incoming ones, in order. |
| `ConvexTally.SyncOneKeepsOthers` | packages/backend/convex/tally.ts:35-100 | A pass leaves every document with another key, and its answers, unchanged. |
| `ConvexTally.SyncOneStores` | packages/backend/convex/tally.ts:35-100 | A pass removes no document and leaves one under the incoming key. |
| `ConvexTally.SyncPrefixCounts` | packages/backend/convex/tally.ts:102-107 | inserted + updated + skipped counts every submission. |
| `ConvexTally.SyncCountsAddUp` | packages/backend/convex/tally.ts:102-107 | On success, `total` equals the batch size and the sum of the counts. |
| `ConvexTally.SyncPrefixKeeps` | packages/backend/convex/tally.ts:35-100 | With one document per key, the loop runs to the end and keeps the invariants. It removes no document. |
| `ConvexTally.SyncPrefixStores` | packages/backend/convex/tally.ts:35-100 | After the loop, every incoming key has a document. |
| `ConvexTally.SyncAllSucceeds` | packages/backend/convex/tally.ts:11-109 | With one document per key, `syncSubmissions` succeeds and counts every submission once. It keeps the invariants and leaves a document under every incoming key. |
| `ConvexTally.SyncOneCurrent` | packages/backend/convex/tally.ts:53-68 | Syncing a dated submission that names its respondent leaves a document that a later pass would skip. |
| `ConvexTally.CurrentKept` | packages/backend/convex/tally.ts:35-100 | A pass under another key leaves such a document alone. |
| `ConvexTally.SyncPrefixCurrent` | packages/backend/convex/tally.ts:35-100 | After a batch of distinct, dated submissions naming their respondents, each is stored so that a later pass would skip it. |
| `ConvexTally.SyncPrefixSkipsAll` | packages/backend/convex/tally.ts:53-58 | A batch whose documents are all current is skipped whole, and nothing is written. |
| `ConvexTally.ResyncSkipsAll` | packages/backend/convex/tally.ts:11-109 | Running the same batch again, once respondent fields are populated, skips every submission and changes nothing. |
| `ConvexTally.SyncPrefixStops` | packages/backend/convex/tally.ts:35-41 | Once the loop has thrown, the remaining submissions change nothing. |
| `ConvexTally.TallyStore.constructor` | packages/backend/convex/schema.ts:24-44 | The deployment starts with empty tables. |
| `ConvexTally.TallyStore.InsertAnswerRows` | packages/backend/convex/tally.ts:87-99 | The answer insert loop stores `InsertAnswers` of the old state. |
| `ConvexTally.TallyStore.DeleteAnswerRows` | packages/backend/convex/tally.ts:74-80 | The delete loop removes exactly the listed answers. |
| `ConvexTally.TallyStore.SyncSubmission` | packages/backend/convex/tally.ts:36-99 | One loop pass changes the tables as `SyncOne` does and returns its outcome. |
| `ConvexTally.TallyStore.SyncSubmissions` | packages/backend/convex/tally.ts:11-109 | The mutation leaves the tables and result of `SyncAll`. An error leaves the old tables, since Convex rolls back. |
| `ConvexTally.TallyStore.ClearAllTallyData` | packages/backend/convex/tally.ts:183-213 | Clearing a form leaves the tables and counts of `Cleared`. |
| `ConvexTally.TallyStore.ClearSubmissions` | packages/backend/convex/tally.ts:194-207 | The clearing loop over the listed ids. |
| `ConvexTally.TallyStore.GetRecentSummaries` | packages/backend/convex/tally.ts:111-140 | Returns `RecentSummaries` of the tables and changes nothing. |
| `ConvexTally.TallyStore.GetAllAnswersForChat` | packages/backend/convex/tally.ts:142-181 | Returns `ChatAnswers` of the tables and changes nothing. |
| `ConvexTally.Summarize` | packages/backend/convex/tally.ts:124-138 | The summary loop yields one summary per id, with its answers. |
| `ConvexTally.FormatSubmissions` | packages/backend/convex/tally.ts:153-179 | The chat loop yields `ChatFrom` of the ids. |
| `ConvexTally.FormatAnswers` | packages/backend/convex/tally.ts:161-176 | The inner chat loop yields one entry per answer. |
| `ConvexTally.ClearedSpec` | packages/backend/convex/tally.ts:183-213 | Clearing deletes exactly the form's documents and the answers that refer to them. It leaves everything else unchanged, and each count plus what remains is the table's old size. |
| `ConvexTally.ClearPrefixSpec` | packages/backend/convex/tally.ts:194-207 | Clearing distinct ids removes those documents and their answers, and counts both. |
| `ConvexTally.ClearPrefixStep` | packages/backend/convex/tally.ts:194-207 | One more id extends the clearing specification. |
| `ConvexTally.ClearStep` | packages/backend/convex/tally.ts:197-203 | The answers scanned for the next id are exactly its answers. |
| `ConvexTally.SummariesOf` | packages/backend/convex/tally.ts:124-138 | One summary per id: the row with its answers. |
| `ConvexTally.RecentIds` | packages/backend/convex/tally.ts:117-122 | The recent ids are documents. |
| `ConvexTally.RecentIdsMembers` | packages/backend/convex/tally.ts:117-122 | At most `limit` (default 10) distinct documents of the form, and all of them when there are fewer. |
| `ConvexTally.RecentIdsNewest` | packages/backend/convex/tally.ts:117-122 | Summaries come newest `syncedAt` first. |
| `ConvexTally.RecentIdsTop` | packages/backend/convex/tally.ts:117-122 | No document left out was synced later than one kept. |
| `ConvexTally.ChatEntries` | packages/backend/convex/tally.ts:161-176 | One entry per answer: label, value text, type, and the document's id and respondent fields. |
| `ConvexTally.AnswerIdsCount` | packages/backend/convex/tally.ts:156-159 | A document's scan lists each of its answers once. |
| `ConvexTally.ChatFromCount` | packages/backend/convex/tally.ts:155-177 | The chat export has one entry per answer of the listed documents. |
| `ConvexTally.ChatAnswersCount` | packages/backend/convex/tally.ts:142-181 | The chat export has exactly as many entries as clearing the form would delete answers. |
| `PersistTally.ToStoredSpec` | apps/web/src/lib/persist-tally.ts:19-68 | An excluded key gives nothing. Otherwise the stored answer keeps id, label and type, sets at most one value slot, and that slot reads back as the original value. |
| `PersistTally.ChatShowsStoredValue` | apps/web/src/lib/persist-tally.ts:19-68 | The chat export shows a stored answer as the value's text. |
| `PersistTally.StoredAnswersSpec` | apps/web/src/lib/persist-tally.ts:78-80 | The stored answers are the kept answers, in order, each converted. No excluded question id is stored. |
| `PersistTally.SerializeSubmission` | apps/web/src/lib/persist-tally.ts:70-82 | The submission id is kept, and `completed` defaults to false. The time is absent when it is missing, empty or does not parse, and otherwise it is the parsed date. The stored answers are the kept answers, one each and in order. |
| `PersistTally.Serialized` | apps/web/src/lib/persist-tally.ts:108 | One serialised submission per response, in order. |
| `PersistTally.SerializedAnonymous` | apps/web/src/lib/persist-tally.ts:70-82 | A serialised submission never carries either respondent answer. |
| `PersistTally.SyncOneNeverSkips` | packages/backend/convex/tally.ts:47-58 | With no respondent fields stored, an anonymous submission is never skipped, and none gets stored. |
| `PersistTally.SyncPrefixNeverSkips` | packages/backend/convex/tally.ts:35-100 | Over a whole batch, nothing is skipped and no respondent field is stored. |
| `PersistTally.DeploymentUrlSpec` | apps/web/src/lib/persist-tally.ts:90-94 | The URL is absent iff every variable is unset. Otherwise it is the first variable that is set, even when empty. |
| `PersistTally.FailureMessage` | apps/web/src/lib/persist-tally.ts:116-118 | The rethrown message wraps the cause between the fixed prefix and suffix. |
| `PersistTally.PersistSpec` | apps/web/src/lib/persist-tally.ts:84-120 | Nothing is written iff there are no responses or no non-empty URL. The mutation never fails from this caller. On success it counts every response once and keeps the invariants, with a document for every response under the form id (default "wor9ON"). |
| `PersistTally.PersistNeverSkips` | apps/web/src/lib/persist-tally.ts:84-120 | Syncing through this caller never skips: inserted + updated is every response. |
| `PersistTally.PersistTallySubmissions` | apps/web/src/lib/persist-tally.ts:84-120 | The deployment's tables and the outcome are those of `Persist`. |
| `TallySummary.ProjectAll` | apps/web/src/lib/tally-summary.ts:18-24 | One projected question per insight, in order. |
| `TallySummary.SanitizeInsightsSpec` | apps/web/src/lib/tally-summary.ts:15-26 | The totals pass through. The first five questions keep label, count and numeric summary. Top choices are cut to a prefix of at most 3, text samples to a prefix of at most 2, and absent parts stay absent. |
| `TallySummary.GenerateTallySummarySpec` | apps/web/src/lib/tally-summary.ts:28-65 | A missing or empty key gives the hint and no model. An error gives the degraded message and no model. A reply gives its trimmed text, or the unavailable message when that is blank, with the model `OPENAI_MODEL ?? "gpt-4o-mini"`. The summary is never empty. |
| `QuestionReports.QuestionMap.constructor` | apps/web/src/app/api/tally-questions/route.ts:14 | The map starts empty. |
| `QuestionReports.QuestionMap.Record` | apps/web/src/app/api/tally-questions/route.ts:18-27 | Recording an answer leaves `Step` of the old state: a count bump, or a new entry with count 1. |
| `QuestionReports.FilledAppend` | apps/web/src/app/api/tally-questions/route.ts:16-29 | Filling the map distributes over concatenation. |
| `QuestionReports.FilledCoherent` | apps/web/src/app/api/tally-questions/route.ts:16-29 | The map's key order lists its keys, once each. |
| `QuestionReports.FilledKeys` | apps/web/src/app/api/tally-questions/route.ts:16-29 | A question is in the map iff some answer has its key. |
| `QuestionReports.FilledCounts` | apps/web/src/app/api/tally-questions/route.ts:18-25 | A question's count is the number of answers with its key. |
| `QuestionReports.OccurrencesSeen` | apps/web/src/app/api/tally-questions/route.ts:18-25 | A positive count means the key was answered. |
| `QuestionReports.FilledFirst` | apps/web/src/app/api/tally-questions/route.ts:22-26 | A question's label and type come from its first answer. |
| `QuestionReports.FilledOrder` | apps/web/src/app/api/tally-questions/route.ts:32 | Entries come in first-answered order. |
| `QuestionReports.KeyOrder` | apps/web/src/app/api/tally-questions/route.ts:32 | Of two entries, the earlier was answered first. |
| `QuestionReports.Lines` | apps/web/src/app/api/tally-questions/route.ts:32-37 | One line per entry with its id, label, type and count. |
| `QuestionReports.QuestionsOfSpec` | apps/web/src/app/api/tally-questions/route.ts:14-37 | The lines have distinct ids, and a line exists iff its question was answered. Each counts its answers and takes its label and type from the first one. |
| `QuestionReports.QuestionsOfIds` | apps/web/src/app/api/tally-questions/route.ts:32-37 | The line ids are distinct and are the answered keys. |
| `QuestionReports.QuestionsOfLine` | apps/web/src/app/api/tally-questions/route.ts:32-37 | Each line describes its question. |
| `QuestionReports.FilledTotal` | apps/web/src/app/api/tally-questions/route.ts:16-29 | The counts add up to the number of answers. |
| `QuestionReports.LinesTotal` | apps/web/src/app/api/tally-questions/route.ts:32-37 | The lines' counts add up to the map's. |
| `QuestionReports.QuestionsOfTotal` | apps/web/src/app/api/tally-questions/route.ts:14-37 | The response counts add up to the number of answers. |
| `QuestionReports.CollectQuestions` | apps/web/src/app/api/tally-questions/route.ts:14-37 | The nested loops and the map produce `QuestionsOf` the flattened answers. |
| `QuestionReports.AnswerSightings` | apps/web/src/app/api/tally-questions/route.ts:17 | One sighting per answer: key, label and type. |
| `QuestionReports.ResponseSightings` | apps/web/src/app/api/tally-questions/route.ts:16 | One group of sightings per response. |
| `QuestionReports.QuestionsRoute` | apps/web/src/app/api/tally-questions/route.ts:4-50 | A failed fetch gives its message. No responses gives "No submissions found". Otherwise the result is the number of responses and the question lines sorted by count. |
| `QuestionReports.QuestionsReportSpec` | apps/web/src/app/api/tally-questions/route.ts:39-42 | The report is a permutation of the lines, in non-increasing count. It lists exactly the answered questions, each with its answer count and its first label and type. |
| `QuestionReports.ReportSorted` | apps/web/src/app/api/tally-questions/route.ts:41 | The sorted lines are in non-increasing response count. |
| `QuestionReports.RowSightings` | apps/web/src/app/api/tally-debug/route.ts:21-22 | One sighting per stored answer, keyed by question id. |
| `QuestionReports.SummarySightings` | apps/web/src/app/api/tally-debug/route.ts:20 | One group per summary. |
| `QuestionReports.FlattenSummaries` | apps/web/src/app/api/tally-debug/route.ts:45 | The flattened sightings number the answers that `reduce` counts. |
| `QuestionReports.DebugRoute` | apps/web/src/app/api/tally-debug/route.ts:7-47 | Queries the 100 newest summaries of `TALLY_FORM_ID ?? "wor9ON"`. Reports their number, their answer total and their question lines. |
| `QuestionReports.DebugReportSpec` | apps/web/src/app/api/tally-debug/route.ts:9-47 | At most 100 summaries, all of the form. The answer total equals the sum of the lines' counts. |

## Where the model follows the code rather than its description

- `lastSubmittedAt` (`apps/web/src/lib/tally-analytics.ts:182`) is described as the latest
  submission time. The code compares `new Date(...)` values, and any comparison with an
  invalid date is false. So a first time that does not parse is kept to the end
  (`TallyAggregate.UnparsedDateSticks`). The latest-time claim is proved only when every time
  parses (`TallyAggregate.LatestSubmittedIsLatest`).
- The skip test of `syncSubmissions` (`packages/backend/convex/tally.ts:53-58`) compares
  `existing.submittedAt === submittedAtMs`, where `submittedAtMs` is
  `submission.submittedAt ?? null` (`packages/backend/convex/tally.ts:43`). A stored row
  without a time holds `undefined`, and an incoming submission without a time gives `null`.
  Since `undefined === null` is false, such a row is never skipped, even when the incoming
  submission has no time either. `Unchanged` requires a stored time.
- The Convex URL (`apps/web/src/lib/persist-tally.ts:90-94`) is chosen with `??`. A variable
  set to "" therefore stops the chain, and `!convexUrl` then skips the write
  (`PersistTally.DeploymentUrlSpec`, `PersistTally.PersistSpec`).
- Re-syncing the same batch is meant to skip every submission once respondent fields are
  populated, and for `syncSubmissions` on its own that holds (`ConvexTally.ResyncSkipsAll`).
  But `toStoredAnswer` drops the two respondent questions (`Wz0E5Q`, `7xZL1R`), since they are
  among the excluded keys. So submissions written through `persistTallySubmissions` never carry
  respondent fields, and the skip branch never fires for them: every submission is inserted or
  updated on every sync (`PersistTally.PersistNeverSkips`). The model keeps this behaviour as
  written and does not correct it.

## Left out

- Floating point: answer numbers, percentages and averages are exact reals. `toFixed` is
  modelled as rounding half upward on the exact value, for non-negative values exactly and
  within the stated bound otherwise.
- Host functions are parameters of a `Runtime` value, and their results are taken as given:
  `Number(s)`, `String(n)`, `JSON.stringify`, `Date.parse` and `localeCompare`.
- `BuildInsightsSorted` holds only when `localeCompare` is a total order. That premise is stated
  as a requirement.
- I/O and the network: the Tally fetch (its pages are a parameter), the Convex client calls,
  the OpenAI call (its reply or failure is a parameter) and `console` logging.
- The prompt text and the call settings of the model (temperature, token limit).
- Environment variables are parameters (`Option<string>` values), and `Date.now()` is the
  parameter `now`.
- Concurrency: the two `Promise.all` calls that delete a document's answers run their
  deletions one after another. One is in `syncSubmissions`
  (`packages/backend/convex/tally.ts:81`, `ConvexTally.TallyStore.DeleteAnswerRows`). The other
  is in `clearAllTallyData` (`packages/backend/convex/tally.ts:202`). Convex queries and mutations are taken as serialisable, with a thrown error rolling
  the mutation back.
- Document ids are the values of a counter, and scans return them in creation order. Convex's
  own id format and index internals are not modelled. Among equal `syncedAt` values, the descending
  `by_form_synced` scan (`NewestFirst`) puts the later document first. The ascending scan that
  `clearAllTallyData` uses (`OldestFirst`) puts the earlier document first.
- Answer rows name their label and type fields `questionLabel` and `questionType`, since
  `label` is a Dafny keyword.
- The final `JSON.stringify(value)` branch of `toStoredAnswer` is unreachable, because a
  normalised value is always one of the five handled cases. Lists are stored as they are:
  `String(entry)` of a string is the string.
- PersistTally.PersistSpec: the rethrown error's full text is not compared. The outcome keeps
  the cause as a `SyncError`, and `FailureMessage` states the wrapping text separately.
- QuestionReports.DebugRoute: the route's 500 branch is not modelled, because the query cannot
  fail in the model.
- QuestionReports.QuestionsRoute: its 500 branch for a non-`Error` throw ("Unknown error") is
  not modelled, because every fetch error is an `Error`.
- `getRecentSummaries` takes a `limit` that is a natural number. Negative or fractional limits
  are not modelled.
- `getApiKey`, the API base URL and the request headers matter only to the HTTP request.
  The model records the form id and page number of each request.
- TallyAnalytics.TypeClassification: `ToLower`, and with it `IsChoiceType` and `IsNumericType`, lower-case
  only the ASCII letters A-Z. JavaScript's `toLowerCase` maps all of Unicode. For a type with a
  non-ASCII capital that lower-cases to one of the listed words, the model can classify the type
  differently from the source. An example is the Kelvin sign U+212A, which lower-cases to "k", so
  "CHEC\u212ABOX" becomes "checkbox". The lemma's claim is therefore exact only for the model's
  lower-casing.
- TallyClient.FetchFormResponses: the page replies are a parameter. A successful reply whose body is not
  JSON, or whose payload is `null`, would throw in the source (`tally.ts:251-253`) and is not
  modelled. `hasMore` is a boolean in the model, so a truthy non-boolean `hasMore` is not
  modelled either. The replies are required to end with a page that stops the loop. An API that
  always answers `hasMore: true` would keep the source's loop running forever.
