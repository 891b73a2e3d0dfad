# Smart Receipt Analyzer: a Dafny model of its data pipeline

Smart Receipt Analyzer turns photographed receipts into categorised expense
records and gives budget and savings feedback. This project models the part of
it that does not depend on the screen, the network or the clock:

- **AI replies into typed records.** This covers the bounded retry loop around every AI call, and the unwrapping of a ```` ``` ```` code fence before JSON parsing. It also covers the numeric coercion `safeParseFloat`, the rebuilding of a receipt with its defaults, the three-stage normalisation of a category, and the repair and truncation of savings insights (module `GeminiService`).
- **Start-up migration.** Legacy localStorage data moves into the indexed store in a one-shot step gated by a flag. The model also covers the monthly threshold check, the category fallback before a record is created, and the empty guard of a savings request (module `App`).
- **The threshold table.** This covers seeding of missing categories (`Db`), reading and writing exactly one row per category (`ThresholdService`), and the editing rules of the threshold form (`ThresholdSettings`).
- **The chart data.** This covers the per-category totals behind the pie chart, its empty state and its slice colours (`CategoryChart`).

## Supporting modules

- `JsRuntime` states in Dafny the JavaScript behaviour the code relies on. It has JSON values, truthiness and property reads, and `String.prototype.trim`. It also has `toLowerCase` on ASCII letters, the global `parseFloat` over decimal literals, `String(value)`, and an `Array.prototype.map` whose callback may throw.
- `JSON.parse` and the rendering of a number as text are passed in as functions (`JsLib`).
- Each AI call is an input: a function from the attempt number to the reply text, or to what the call threw.
- The IndexedDB store is a class holding two keyed maps: expenses by id and thresholds by category. `bulkPut` is an upsert by key in row order.
- localStorage is a class holding a map from string to string.
- The current month and the parsing of a date string are parameters.
- Store failures are boolean or error parameters.

## How the model reads the code

Some behaviour of the code is easy to miss; the model follows the code:

- A fence whose content is only word characters (```` ```42``` ````) is not unwrapped. The optional tag group of the regular expression at services/geminiService.ts:51 takes every word character after the opening fence, so the body it leaves is empty and falsy, and the whole text is parsed (`GeminiService.WordOnlyFenceIsNotUnwrapped`).
- `safeParseFloat("Infinity")` returns Infinity: `parseFloat` reads it and it is not NaN (services/geminiService.ts:70-71). Reals have no infinity, so the model reads only decimal literals; see "Left out".
- A legacy key is removed as soon as its rows are written (App.tsx:78), before the other key is tried and before the flag is set. After a later failure that key stays removed, and the next start migrates only what is left (`App.MigrationLosesNoData`).
- `bulkPut` writes rows in order under their primary key, so a later legacy row with the same id (or category) replaces an earlier one. "All its rows are in the store" is therefore true row by row only when the legacy ids are distinct (`App.MigratedRowsStored`); otherwise each id holds the last row with it.
- The receipt's required fields are tested for truthiness (services/geminiService.ts:126), so a numeric total of 0 or an empty vendor name is rejected as missing (`GeminiService.ReceiptFromJsonSpec`).
- The read of the threshold table at the start of seeding (db.ts:19) is outside the try, so its failure rejects `populateInitialThresholds` and the start-up ends before the data is loaded (App.tsx:119-122; `App.MigrateAndInitialize`).

## Model

| member | source | states |
|---|---|---|
| GeminiService.WithRetries | services/geminiService.ts:25-47 | The loop's result equals `Retried` from attempt 0. At most MAX_RETRIES + 1 = 3 attempts are made, one after another, and every attempt before the last threw. Success carries the value of the first attempt that returned. Failure comes only after three throws, and its message names the operation and the last error's message, or gives the "unknown error type" text for a non-Error throw. The total wait is 1000 ms per retry, so there is no wait before the first attempt or after the last. |
| GeminiService.Retried | services/geminiService.ts:25-47 | The retry outcome as a recursive definition: the value of the first attempt that returns, else the wrapped error of the third; the loop of WithRetries is proved equal to it. |
| GeminiService.FenceBody | services/geminiService.ts:51-52 | The capture of the fence regex, or none when the text is not fenced; specified by FenceBodyOfWrapped and FenceBodyOfFenced. |
| GeminiService.JsonPayload | services/geminiService.ts:50-57 | The text handed to JSON.parse; specified by FencedPayload, UnfencedPayload, UnfencedReplyParsedTrimmed and WordOnlyFenceIsNotUnwrapped. |
| GeminiService.Preview | services/geminiService.ts:61 | The preview is the first min(200, length) characters of the raw text, and the whole text when it is no longer than 200. |
| GeminiService.ParseJsonFromGeminiResponse | services/geminiService.ts:49-63 | Succeeds exactly when JSON.parse accepts the extracted payload, with the parsed value; otherwise it fails with the error carrying the preview of the original, untrimmed text. |
| GeminiService.FenceBodyOfWrapped | services/geminiService.ts:51-52 | Between two fences, the regex capture is the inner text less its leading word characters (the language tag), trimmed. |
| GeminiService.FenceBodyOfFenced | services/geminiService.ts:51-54 | For a reply of the form ```` ```tag ````, line break, body, line break, ```` ``` ````, with a word-character tag and a non-empty trimmed body, the capture is exactly the body. |
| GeminiService.FencedPayload | services/geminiService.ts:50-55 | The text handed to JSON.parse for such a fenced reply is its body. |
| GeminiService.UnfencedPayload | services/geminiService.ts:50-57 | A trimmed reply that is not fenced is parsed as it is. |
| GeminiService.FencedReplyParsesAsBody | services/geminiService.ts:49-62 | A fenced reply and its bare body (when the body is not itself fenced) give the same JSON.parse input, so they give the same result. |
| GeminiService.UnfencedReplyParsedTrimmed | services/geminiService.ts:50-57 | A reply that does not open with a fence after trimming is parsed as the trimmed reply. |
| GeminiService.WordOnlyFenceIsNotUnwrapped | services/geminiService.ts:51-55 | A fence around word characters only is not unwrapped: the tag group takes them all and the empty body is falsy, so the whole fenced text is parsed. |
| GeminiService.SafeParseFloat | services/geminiService.ts:65-72 | Undefined, null and text that is blank after trimming give the default. A number gives itself. Other text gives parseFloat of the trimmed text, or the default when that is NaN. A result other than the default comes only from a present, non-null value. |
| GeminiService.SafeParseFloatReadsDecimal | services/geminiService.ts:65-72 | A decimal numeral such as "12.5" is read as its exact value. |
| GeminiService.SafeParseFloatDefaultsOnNonNumeral | services/geminiService.ts:65-72 | Blank text, and text that opens with no sign, digit or point (such as "abc"), give the default. |
| GeminiService.SafeParseFloatOfTrimmed | services/geminiService.ts:67-71 | A trimmed, non-blank string that parseFloat reads gives that number. |
| GeminiService.ItemFromJson | services/geminiService.ts:131-136 | One line item rebuilt from its reply entry, a null entry throwing; specified by ReceiptFromJsonSpec through ItemRepaired. |
| GeminiService.ReceiptFromJson | services/geminiService.ts:124-156 | The checks and the rebuilding after the AI call; specified by ReceiptFromJsonSpec. |
| GeminiService.ReceiptFromJsonSpec | services/geminiService.ts:126-156 | A null reply throws the property-read TypeError. A falsy totalAmount, vendorName or transactionDate throws the missing-fields error. Success comes exactly when those are truthy and `items` is falsy or an array without null entries. On success the items keep the length and order of the reply's items (none when the field is falsy). Each item has the text of a truthy description or "Unknown Item", the coerced quantity (1 when missing) and totalPrice (0 when missing), and the coerced unitPrice exactly when one is given. vendorName and transactionDate are the text of the reply's values, the total is the coerced totalAmount, and subtotal and taxAmount are the coerced values exactly when given. currency is the text of a truthy value or "EUR", and paymentMethod is the text of a truthy value, else absent. |
| GeminiService.MissingFieldsAttemptThrows | services/geminiService.ts:124-129 | A reply that parses to a non-null value lacking a required field makes the attempt throw the missing-fields error. |
| GeminiService.AllAttemptsMissFields | services/geminiService.ts:124-129 | When every reply misses a required field, each of the three attempts throws the missing-fields error. |
| GeminiService.AnalyzeReceipt | services/geminiService.ts:74-158 | The result is the retry outcome of the receipt attempts (call, parse, field check, repair), so the earlier attempts threw and a success is the first returned receipt. A failure comes after three attempts and carries the wrapped error of the last one. If every reply lacks a required field, that error is the one naming the field check. |
| GeminiService.NormalizeCategory | services/geminiService.ts:175-185 | The normalised reply is always a member of the enumeration. |
| GeminiService.NormalizeCategorySpec | services/geminiService.ts:175-185 | The result is the trimmed reply when that is a category. It is a category equal to the trimmed reply up to letter case when one exists. It is "Other" when no category matches even ignoring case. |
| GeminiService.NormalizeIgnoresCase | services/geminiService.ts:181-183 | A reply equal to a category up to case and surrounding white space (such as " groceries") becomes that category. |
| GeminiService.NormalizeCategoryIdempotent | services/geminiService.ts:175-185 | Normalising a normalised category changes nothing. |
| GeminiService.ClassifyExpense | services/geminiService.ts:161-187 | The result is the retry outcome of the classification attempts. Every AI call before the last made failed, so a success is the normalised reply of the first call that succeeded, and it is a category. The call fails exactly when all three AI calls throw, and then carries the wrapped last error. |
| GeminiService.EarlierClassifyCallsFailed | services/geminiService.ts:161-187 | Classification attempts that threw are AI calls that failed. |
| GeminiService.AllClassifyCallsThrew | services/geminiService.ts:161-187 | Three attempts of classifyExpense that threw are three AI calls that threw. |
| GeminiService.InsightRequestFor | services/geminiService.ts:195-196 | The prompt carries the first min(n, 50) expenses in order, and the count of those not shown. |
| GeminiService.InsightItemFromJson | services/geminiService.ts:225-232 | A null entry throws; any other entry is rebuilt with a category of the enumeration. |
| GeminiService.InsightItemDefaults | services/geminiService.ts:226-231 | A category string of the enumeration in the reply is kept, and a category other than "Other" comes only from the reply. A truthy observation, suggestion or potential saving is kept as its text (`String(value)`); a falsy one gets its canned text. |
| GeminiService.InsightCategoryIsExact | services/geminiService.ts:226 | A category string outside the enumeration, including a case variant such as "groceries", becomes "Other", with no case-insensitive step. |
| GeminiService.InsightsFromJson | services/geminiService.ts:220-238 | The shape check, the rebuilding of every entry and the cut to four; specified by InsightsFromJsonSpec. |
| GeminiService.InsightsFromJsonSpec | services/geminiService.ts:220-238 | A null reply throws the TypeError. A reply whose insights is not an array or whose overallSummary is not a string throws the structure error. A well-shaped reply succeeds exactly when no entry, wherever it sits, is null; otherwise it throws the TypeError on `item.category`. On success there are min(n, 4) insights, each the rebuilt reply entry at the same position, each with a category of the enumeration, and an empty summary is replaced by its default. |
| GeminiService.InsightsExamples | services/geminiService.ts:220-233 | A reply without overallSummary is rejected; six usable entries give exactly four insights; five entries with a null fifth fail, although only four would be kept. |
| GeminiService.ReturnedInsightIsBounded | services/geminiService.ts:225-237 | An attempt that returns gives at most 4 insights, each with a category of the enumeration. |
| GeminiService.GetSavingsInsights | services/geminiService.ts:189-240 | The result is the retry outcome of the insight attempts on one request built from the first 50 expenses. The earlier attempts threw; a failure comes after three attempts with the wrapped error of the last; a returned insight has at most 4 entries, each with a category of the enumeration. |
| JsRuntime.TrimIdentity | services/geminiService.ts:50 | trim leaves a string unchanged exactly when it has no white space at either end. |
| JsRuntime.TrimRemovesOnlySpace | services/geminiService.ts:50 | The trimmed text is the original less a leading and a trailing run of white space. |
| JsRuntime.TrimTrims | services/geminiService.ts:54 | The trimmed text has no white space at its ends, and trimming it again changes nothing. |
| JsRuntime.ParseFloatOfDecimal | services/geminiService.ts:70 | parseFloat reads a numeral `digits.digits` as its exact decimal value. |
| JsRuntime.ParseFloatOfNonNumeral | services/geminiService.ts:70 | parseFloat gives NaN for text whose first non-blank character is not a sign, digit or point. |
| JsRuntime.MapOrThrow | services/geminiService.ts:131-136 | map succeeds exactly when the callback succeeds on every element, giving the results in order. Otherwise it fails with the error of the first element that throws. |
| Constants.CategoriesWellFormed | constants.ts:5-18 | The twelve categories are distinct and already trimmed, no two differ only in letter case, and "Other" is one of them. |
| Constants.FindLowerCase | services/geminiService.ts:182 | `find` gives the first category whose lower-case form equals the lowered reply, and none when no category has it. |
| Constants.CategoryByLowerCase | constants.ts:5-18 | Two categories with the same lower-case form are the same category. |
| Db.PutAll | services/thresholdService.ts:48 | `bulkPut` as an upsert of the rows in order; specified by PutAllSpec. |
| Db.PutAllSpec | services/thresholdService.ts:48 | After bulkPut, a key holds the last row written under it. A key no row was written under keeps its old row, or stays absent. |
| Db.PutAllKeyed | services/thresholdService.ts:48 | bulkPut keeps every row under its own primary key. |
| Db.LastWithKey | services/thresholdService.ts:35-39 | The last row with a key comes from the rows, with that key; when there is none, no row has that key. |
| Db.ZeroThresholds | services/thresholdService.ts:27 | One row with amount 0 per listed category, in the listed order. |
| Db.CategoriesToSeed | db.ts:20-22 | The seed list holds exactly the listed categories without a row, and is no longer than the list. |
| Db.CategoriesToSeedSnoc | db.ts:20-22 | One more listed category is seeded, at the end, exactly when it has no row, so the seed list keeps the enumeration order. |
| Db.Seeded | db.ts:18-36 | The table after seeding; specified by SeededSpec and PutZeroRowsSeeds. |
| Db.SeededSpec | db.ts:18-36 | After seeding, every category has a row, and only missing categories were added, each with amount 0. Existing rows, including those of categories outside the enumeration, are unchanged, and nothing is left to seed. |
| Db.SeededIdempotent | db.ts:18-35 | Seeding a seeded table changes nothing. |
| Db.PutZeroRowsSeeds | db.ts:24-28 | Writing the zero rows of the seed list gives exactly the seeded table. |
| Db.ReceiptDb.constructor | db.ts:10-16 | A new store has both tables empty, each keyed by its primary key (id, category). |
| Db.ReceiptDb.BulkPutExpenses | App.tsx:76 | The expense table becomes the upsert of the rows. The threshold table is unchanged, and every row stays under its own key. |
| Db.ReceiptDb.BulkPutThresholds | services/thresholdService.ts:48 | The threshold table becomes the upsert of the rows. The expense table is unchanged, and every row stays under its own key. |
| Db.ReceiptDb.AddExpense | App.tsx:180 | `add` is refused, with the store unchanged, exactly when the id is already taken; otherwise it adds that one row. |
| Db.ReceiptDb.PopulateInitialThresholds | db.ts:18-36 | A failing read of the table rejects, with nothing written. Otherwise the threshold table becomes the seeded table; when the bulk add fails, the error is swallowed and the table is as it was. Expenses are untouched. |
| ThresholdService.TableThresholds | services/thresholdService.ts:9-23 | What the table reads as: one entry per category; specified by TableThresholdsSpec. |
| ThresholdService.TableThresholdsSpec | services/thresholdService.ts:9-23 | The read list has one entry per category, in enumeration order. A category's stored row supplies its entry, and a category without one reads as amount 0. |
| ThresholdService.ForeignRowsIgnored | services/thresholdService.ts:18 | A stored row of a category outside the enumeration changes nothing that is read. |
| ThresholdService.GetThresholds | services/thresholdService.ts:6-29 | The Map filled with zero rows and then overridden by stored rows comes out as the table read above. A read error gives a zero row for every category. |
| ThresholdService.LastAmount | services/thresholdService.ts:35-39 | The amount the update Map holds for a category is that of its last update entry; with no entry the Map has no amount for it. |
| ThresholdService.LastAmountSnoc | services/thresholdService.ts:35-39 | One more update entry sets its own category's amount and leaves the others as they were. |
| ThresholdService.LastAmountAbsent | services/thresholdService.ts:35-39 | A category without an update entry has no amount in the Map. |
| ThresholdService.SavedRows | services/thresholdService.ts:35-45 | The rows saveThresholds writes, one per category; specified by SavedRowsSpec. |
| ThresholdService.SavedRowsSpec | services/thresholdService.ts:35-45 | The saved rows are one per category in enumeration order. An update entry outside the enumeration changes nothing, and a later entry for a category overrides earlier ones and no other category. |
| ThresholdService.SaveThresholds | services/thresholdService.ts:31-53 | On success the table is the upsert of a row for every category: the last supplied amount, or 0. A write error is passed on to the caller with the table unchanged. |
| ThresholdService.GetAfterSave | services/thresholdService.ts:42-48 | Reading the table back after a successful save gives exactly the saved rows, whatever it held before. |
| ThresholdSettings.FindThreshold | components/ThresholdSettings.tsx:18 | `find` returns an entry of the category when there is one, and none only when no entry has it. |
| ThresholdSettings.FindThresholdIsFirst | components/ThresholdSettings.tsx:18 | The entry found is the first of its category. |
| ThresholdSettings.InitialThresholds | components/ThresholdSettings.tsx:17-20 | The list the form starts from, one entry per category; specified by InitialThresholdsSpec. |
| ThresholdSettings.InitialThresholdsSpec | components/ThresholdSettings.tsx:17-20 | The form's list has one entry per category, in enumeration order. Each entry is the current threshold when there is one, otherwise amount 0. |
| ThresholdSettings.AmountInput | components/ThresholdSettings.tsx:25-30 | An accepted input never gives a negative amount. |
| ThresholdSettings.AmountInputSpec | components/ThresholdSettings.tsx:25-30 | A non-empty string that parses to NaN is ignored, and only such a string. The empty string gives 0, a non-negative number gives itself, and a negative number gives 0. |
| ThresholdSettings.AmountInputExamples | components/ThresholdSettings.tsx:25-29 | A decimal numeral sets its value; text that opens with no number is ignored. |
| ThresholdSettings.SetAmount | components/ThresholdSettings.tsx:28-30 | The `map` of an amount edit, keeping the length; specified by SetAmountSpec. |
| ThresholdSettings.SetAmountSpec | components/ThresholdSettings.tsx:28-30 | Only the named category's entries change, and only in their amount; the other entries and the order are kept. |
| ThresholdSettings.ActiveThresholds | components/ThresholdSettings.tsx:36 | The saved list holds exactly the entries with amount > 0, and is no longer than the list. |
| ThresholdSettings.ActiveThresholdsSnoc | components/ThresholdSettings.tsx:36 | One more entry is kept, at the end, exactly when its amount is positive, so the filter keeps the list's order. |
| ThresholdSettings.EditedListShape | components/ThresholdSettings.tsx:17-30 | The form's list has no category twice, and amount edits keep it so. |
| ThresholdSettings.ActiveSavesSameAmounts | services/thresholdService.ts:44 | For a list with one entry per category and no negative amount, dropping the zero entries leaves every category's saved amount as it was. |
| ThresholdSettings.SaveActiveIsSaveAll | services/thresholdService.ts:42-45 | Saving only the active entries writes the same rows as saving the whole list. |
| ThresholdSettings.ThresholdEditor.constructor | components/ThresholdSettings.tsx:15-22 | Mounting the form sets the list to the merge of the current thresholds. |
| ThresholdSettings.ThresholdEditor.Reload | components/ThresholdSettings.tsx:15-22 | A change of the current thresholds rebuilds the list from them. |
| ThresholdSettings.ThresholdEditor.HandleAmountChange | components/ThresholdSettings.tsx:24-31 | An ignored input leaves the list unchanged; otherwise the category's entries take the accepted amount. A list without negative amounts keeps none. |
| ThresholdSettings.ThresholdEditor.HandleSave | components/ThresholdSettings.tsx:33-37 | What is handed on is the active entries of the list, all with amount > 0. |
| CategoryChart.OfCategory | components/CategoryChart.tsx:20 | The filter keeps exactly the expenses of the category. |
| CategoryChart.CategoryTotalSnoc | components/CategoryChart.tsx:19-21 | One more expense adds its amount to its own category's total and to no other. |
| CategoryChart.AllSlicesInOrder | components/CategoryChart.tsx:18-22 | Before filtering there is one slice per category, in enumeration order. |
| CategoryChart.PositiveSlices | components/CategoryChart.tsx:23 | The filter keeps exactly the slices with value > 0. |
| CategoryChart.PositiveSlicesKeepOrder | components/CategoryChart.tsx:23 | Filtering keeps the slices in enumeration order. |
| CategoryChart.DataByCategory | components/CategoryChart.tsx:18-23 | The chart's data; specified by DataByCategorySpec. |
| CategoryChart.DataByCategorySpec | components/CategoryChart.tsx:18-23 | Every slice shown is a category with a positive total, whose value is that total. Every category with a positive total is shown, and the slices are distinct, in enumeration order and at most twelve. |
| CategoryChart.ForeignExpenseIgnored | components/CategoryChart.tsx:18-21 | An expense whose category is outside the enumeration changes no slice. |
| CategoryChart.ShowsEmptyState | components/CategoryChart.tsx:25 | The condition for the empty state; specified by EmptyStateSpec. |
| CategoryChart.EmptyStateSpec | components/CategoryChart.tsx:25 | The empty state is shown exactly when no category has a positive total. |
| CategoryChart.SliceColor | components/CategoryChart.tsx:52 | `index % COLORS.length` always picks one of the twelve colours. |
| CategoryChart.SliceColorsDistinct | components/CategoryChart.tsx:51-53 | No two slices of one chart share a colour. |
| App.LocalStorage.constructor | App.tsx:60 | The storage read by the migration holds exactly the given items. |
| App.LocalStorage.GetItem | App.tsx:60 | getItem gives the stored value, or null exactly when the key is missing. |
| App.LocalStorage.SetItem | App.tsx:105 | setItem stores the value under the key and changes nothing else. |
| App.LocalStorage.RemoveItem | App.tsx:78 | removeItem drops the key and changes nothing else. |
| App.MigrateKey | App.tsx:70-85 | One legacy key's migration step; specified by MigrateKeySpec. |
| App.MigrateKeySpec | App.tsx:70-85 | For one legacy key: it is removed exactly when its value parses to a non-empty list that was written. So either the key remains, or the table is the old table with the rows bulk-put in order, and each row's key holds the last row with that key. An empty list, a missing key or an error changes neither store, and other keys are never touched. |
| App.Migrate | App.tsx:60-113 | The migration step of the start-up; specified by MarkedMigrationIsSkipped, MigrationMarkSpec and MigrationLosesNoData. |
| App.MarkedMigrationIsSkipped | App.tsx:60-116 | With the flag set, no legacy key is read, removed or written to the store. |
| App.MigrationMarkSpec | App.tsx:105-113 | The flag is set to "true" exactly by a migration that went through both keys without an exception. After a failure it is still unset, so the next start tries again. Running again after a success migrates nothing. |
| App.MigrationLosesNoData | App.tsx:69-113 | Whatever fails, each legacy key either remains in localStorage or the store holds the old table with that key's rows bulk-put in order. A key written before a later failure stays removed. |
| App.MigratedRowsStored | App.tsx:69-85 | When the legacy expenses have distinct ids and their key was removed, every legacy expense is in the store under its id, unchanged. |
| App.MigrateLegacyExpenses | App.tsx:69-85 | The live stores end as the expense-key step says, and the threshold table is untouched. |
| App.MigrateLegacyThresholds | App.tsx:87-103 | The live stores end as the threshold-key step says, and the expense table is untouched. |
| App.MigrateAndInitialize | App.tsx:57-123 | The stores end as the migration says (skipped, done, or stopped at the first error). Then, whatever the outcome, the threshold table is seeded, unless the seeding read or the bulk add fails. A failing seeding read ends the start-up with nothing loaded; otherwise the threshold list is read from the table. |
| App.ThisMonth | App.tsx:136-138 | The month's expenses are exactly those whose date falls in the current month and year. |
| App.MonthlySpend | App.tsx:132-141 | A category's spending this month; specified by MonthlySpendSpec. |
| App.MonthlySpendSpec | App.tsx:132-141 | A category has a monthly sum exactly when some expense of the month has it, and the sum is that category's total over the month's expenses. |
| App.MonthlyStepSame | App.tsx:139 | An expense of the month adds its amount to its category's sum, starting from 0. |
| App.MonthlyStepOther | App.tsx:136-140 | An expense outside the month, or of another category, leaves a category's sum unchanged. |
| App.TallyInMonth | App.tsx:136-141 | One loop step on an expense of the month keeps the dictionary equal to the monthly sums. |
| App.TallyOtherMonth | App.tsx:136-141 | One loop step on an expense of another month keeps the dictionary equal to the monthly sums. |
| App.BreachesOf | App.tsx:143-146 | At most one warning per threshold; specified by BreachesOfSpec. |
| App.BreachesOfSpec | App.tsx:143-146 | Every warning names a threshold with amount > 0 whose category's monthly sum is strictly greater. Every such threshold warns, so a sum equal to the threshold never warns. |
| App.OtherMonthIgnored | App.tsx:136-146 | An expense outside the current month changes no warning. |
| App.CheckThresholds | App.tsx:129-148 | The warnings the dictionary loop and the threshold scan produce are exactly the breaches above, in threshold order; an empty threshold list gives none. |
| App.FallbackCategory | App.tsx:169-171 | The checked category is the given one when it is in the enumeration and "Other" otherwise. |
| App.BuildExpense | App.tsx:169-178 | The new record is the receipt's fields plus the id and the file name. Its category is the checked one: the classified category when it is in the enumeration, else "Other". |
| App.HandleImageUpload | App.tsx:159-192 | The analysis is the retry outcome of the receipt attempts on the receipt replies, and the classification, when asked for, that of the classification attempts. Classification is asked for exactly when the analysis succeeded with a non-zero total and a non-empty vendor name; a falsy total or vendor fails with "Failed to extract essential data from receipt.". Every error is passed on. On success the record built from the receipt and the category is added under the fresh id. On failure the expenses are untouched, and thresholds are never touched. |
| App.RequestSavingsAnalysis | App.tsx:228-252 | With no expenses the request is refused with the "Not enough data" message and the service is not called. Otherwise the result is the service's: the retry outcome of the insight attempts on the request built from the expenses, the earlier attempts having thrown and a success being the last attempt's insight, with at most 4 entries of enumeration categories. |

## Left out

- The AI call itself: the network call, the prompt wording, the model configuration and the API-key setup. Each reply is an input. The classification reply is not tied to the vendor name and item descriptions it is asked about.
- The internals of `JSON.parse` and the rendering of a number as text (`String(n)`). Both are passed in as functions.
- `JsRuntime.ParseFloat` covers decimal literals with an optional exponent. `Infinity` and IEEE rounding are not modelled.
- GeminiService.SafeParseFloat: amounts are exact reals, so NaN is modelled only as "parseFloat found no number". `parseFloat("Infinity")` is not modelled; the code would return Infinity.
- JsRuntime.ToLower lowers ASCII letters only. Every category is ASCII, but a reply with other cased letters is not lowered the way JavaScript would lower it.
- GeminiService.Preview counts Unicode characters, while `substring(0, 200)` counts UTF-16 code units. For text with characters outside the Basic Multilingual Plane the code's preview can be shorter, or split a surrogate pair.
- The exact TypeError texts are V8's wording, taken as constants.
- Dates: `new Date(text)`, its month and year, and the time zone are the parameter `dateOf`. The current month is the parameter `now`. `Date.now()` ids are the parameter `id`.
- Timing, logging and React: the retry delay is counted, not waited. Console output, notifications and their timing, loading flags, view switches, the `toFixed` formatting and asynchronous interleaving are not modelled. Everything runs in sequence.
- App.CheckThresholds returns its warnings instead of showing them. The reading of `monthlyExpensesByCategory[c]` for a name that an empty object inherits (such as "constructor") is not modelled.
- The effect that calls checkThresholds whenever the state changes (App.tsx:151-156) is not modelled.
- App.HandleImageUpload: the reload of the data after the add (`loadDataFromDB`) is not modelled. The analysis, classification and store errors are passed on as messages; non-Error throws are not distinguished.
- Store failures: a failing bulk write is modelled as leaving its table as it was; a partial commit is not modelled. The legacy values are taken to parse to arrays of records, as the code's unchecked cast assumes.
- App.MigrateAndInitialize: the final load reads only the threshold list. `services/expenseService.ts` (expense reads, their order and their date default) is not part of this model.
- `handleDeleteExpense` and `handleUpdateThresholds` are thin wrappers. The second only calls saveThresholds, which `ThresholdService.SaveThresholds` models.
- Not part of this model: the service worker (`public/sw.js`), the build configuration, the rendering-only components, `components/FileUpload.tsx` and `utils/imageUtils.ts`.
