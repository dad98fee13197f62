# Smart Ledger: the expense-ledger data layer in Dafny

Smart Ledger is a browser expense book. Expenses come in three ways:

- typed into an editable list of drafts;
- extracted from a receipt photo or pasted invoice text;
- imported from a Taiwanese e-invoice carrier, the Ministry of Finance mobile barcode.

Saved drafts become expenses in a local collection. That collection can be listed by day and summarised on a dashboard. This project models the ledger's data layer with the rendering, network and storage taken away.

- `Types` (types.js): the closed set of eight categories, their stored labels and the colour table. It also defines the draft and expense records.
- `StringOps`, `NumberParsing` and `Seqs`: the JavaScript built-ins the layer relies on, stated on sequences:
  - `toLowerCase`, `includes`, `join`, `split`, `toString` and `padStart`;
  - `parseFloat`, with leading white space, sign, digits, point and exponent;
  - `filter` and `map`.
- `MofService` (services/mofService.js and its TypeScript twin):
  - the merchant-to-category classifier, a first-match-wins chain of six keyword rules;
  - the conversion of carrier invoice records into drafts: a Minguo date to an ISO date, line items joined with `、` or a placeholder;
  - the three fixed records of test mode.
- `AddExpense` (components/AddExpense.js): the draft editor, a class over a `drafts` sequence.
  - Drafts are updated, removed and appended by index.
  - A non-empty import result replaces the drafts wholesale.
  - Saving keeps only the complete drafts.
- `App` (App.js): the ledger, a class over an `expenses` sequence.
  - Save maps drafts to expenses with fresh ids and appends them.
  - A confirmed delete filters the collection by id.
- `Aggregates`, `ExpenseList` and `Dashboard`: the read side.
  - The list view groups expenses by date, orders the dates newest first and totals each day.
  - The dashboard totals all amounts and totals per category in first-occurrence order.

Amounts are exact reals, and ids, today's date, `confirm`'s answer and the outcome of every awaited call are inputs. The central properties are:

- the classifier's rule priority, case-insensitivity and default;
- the date conversion round trip;
- the save filter's exactness;
- the editor's frame conditions;
- id uniqueness across save and delete;
- the conservation laws of grouping: every expense lands in exactly one day, and the day and category totals add up to the grand total.

## Model

| member | source | states |
|---|---|---|
| Types.AllCategoriesEnumeratesEach | types.js:2-11 | There are exactly eight categories and the enumeration lists each of them once, in declaration order (the order of the category buttons). |
| Types.LabelRoundTrip | types.js:3-10 | The eight labels are pairwise distinct, and reading a category's label back gives that category. |
| Types.ColorsTotalAndDistinct | types.js:13-22 | Every category label has a colour, and two different categories never share a colour. |
| Types.CategoryOfLabel | types.js:2-11 | A string read back as a category is exactly that category's label. |
| StringOps.LowerAbsorbsCase | services/mofService.js:6-7 | Lower-casing is idempotent, and lower-casing an upper-cased string gives the lower-cased original. |
| StringOps.ContainsIff | services/mofService.js:9 | `includes` holds exactly when some window of the text spells the word. |
| StringOps.SplitJoin | services/mofService.js:116 | Splitting a `、`-join on `、` gives back the joined parts when none of them contains `、`. |
| StringOps.JoinEmptyIff | services/mofService.js:116 | A join is empty exactly when there are no parts, or a single empty one. |
| StringOps.DecimalRoundTrip | services/mofService.js:115 | Reading back a printed natural number gives the number. |
| StringOps.DecimalStringShape | services/mofService.js:115 | A printed number has one digit exactly below 10 and at most two below 100, and never starts with a superfluous zero. |
| StringOps.PadStart | services/mofService.js:115 | Padding leaves a long enough string alone, and otherwise reaches the width with the fill character in front of the original. |
| NumberParsing.TrimStart | components/AddExpense.js:86 | The skipped prefix is all white space, and what remains does not start with white space. |
| NumberParsing.ParseFloatDefinedIff | components/AddExpense.js:86 | `parseFloat` yields a number exactly when, after white space and an optional sign, a digit comes next, or a point followed by a digit. |
| NumberParsing.ParseFloatOfDecimal | App.js:35 | A printed natural number parses to itself. |
| NumberParsing.ParseFloatReadsFraction | components/AddExpense.js:86 | "12.5" reads as 12.5. |
| NumberParsing.ParseFloatRejectsText | components/AddExpense.js:86 | "abc" and the empty amount are NaN. |
| MofService.GuessCategory | services/mofService.js:5-29 | The classifier is total and never answers Education. |
| MofService.ContainsAnyIff | services/mofService.ts:34 | A rule's chain of `includes` tests holds exactly when one of its words occurs. |
| MofService.ClassifyLoweredIsFirstFiring | services/mofService.ts:34-53 | The if-chain equals a first-match search over the rules in the order food, transport, housing, shopping, entertainment, medical, with Other as the default. |
| MofService.GuessCategoryIsFirstFiring | services/mofService.ts:30-54 | The classifier is that first-match search applied to the lower-cased merchant and description. |
| MofService.GuessCategoryPriority | services/mofService.js:9-26 | Rule i decides the category exactly when it fires and no earlier rule fires (both directions). |
| MofService.GuessCategoryDefault | services/mofService.js:9-28 | The answer is Other exactly when no rule fires; otherwise it is the category of one of the six rules. |
| MofService.GuessCategoryOfNothing | services/mofService.js:6-28 | An empty merchant and an empty description give Other. |
| MofService.GuessCategoryIgnoresCase | services/mofService.js:6-7 | Upper-casing or lower-casing the ASCII letters of both arguments does not change the category. |
| MofService.GuessCategoryDescriptionOnlyFeedsFood | services/mofService.js:9-26 | Two descriptions that contain no food word give the same category for the same merchant: the merchant alone decides. |
| MofService.GuessCategoryFoodBeforeTransport | services/mofService.js:9-14 | A merchant naming both 全家 and 捷運 is food, because the food rule is tried first. |
| MofService.TwoDigitsRoundTrip | services/mofService.js:115 | Below 100 the zero-padded form has exactly two digits and reads back as the number. |
| MofService.IsoDateOfDecodes | services/mofService.ts:147 | The ISO date reads back field by field: the Minguo year plus 1911, then a dash, a two-digit month, a dash and a two-digit day. |
| MofService.IsoDateOfExample | services/mofService.js:115 | Minguo 113-1-1 becomes "2024-01-01". |
| MofService.DescriptionOfSpec | services/mofService.js:116 | The description is never empty. It is the placeholder when the line items are absent, none, or a single empty one. Otherwise, when no item contains `、`, splitting it on `、` gives back the line items. |
| MofService.ConvertInvoice | services/mofService.js:114-125 | A draft passes amount and merchant through unchanged. Its date is the ISO date, its description the joined line items, and its category the classifier's label for the merchant and that description (never Education). |
| MofService.ConvertDetails | services/mofService.ts:146-157 | One draft per invoice, in the same order; missing details give no drafts. |
| MofService.LiveOutcome | services/mofService.js:95-131 | The live query returns exactly when the response is `ok` with code 200, and then it returns the converted `details`. Every failure is rethrown with the one connection-failure message. |
| MofService.FetchCarrierInvoices | services/mofService.js:61-72 | In test mode the answer is the three fixed records, dated today, whatever the credentials. Otherwise it is the outcome of the live reply. |
| MofService.MockInvoicesShape | services/mofService.ts:57-84 | Test mode's records are dated today, with amounts "155", "860" and "1200" and categories food, housing and transport. |
| MofService.MockFoodAgrees | services/mofService.js:37-43 | The first fixed record's stored category is what the classifier gives its own merchant and description. |
| MofService.MockHousingAgrees | services/mofService.js:44-50 | The second fixed record's stored category is what the classifier gives its own merchant and description. |
| MofService.MockTransportAgrees | services/mofService.js:51-57 | The third fixed record's stored category is what the classifier gives its own merchant and description. |
| MofService.MockInvoicesClassified | services/mofService.js:36-58 | All three fixed records are filed as the classifier would file them. |
| MofService.FetchedDraftsClassified | services/mofService.js:61-125 | In either mode, every fetched draft is filed under the classifier's verdict on its own merchant and description. |
| AddExpense.ValidDraftsSpec | components/AddExpense.js:86 | The saved batch holds exactly the drafts with a non-empty, `parseFloat`-readable amount and a non-empty description. It is empty exactly when no draft qualifies, and it is the whole list when all do. |
| AddExpense.ValidDraftsOrder | components/AddExpense.js:86 | The filter splits over concatenation, so the kept drafts keep their order. A single draft is kept exactly when it is valid. |
| AddExpense.WithField | components/AddExpense.js:96 | The spread update sets the named field and leaves every other field as it was. |
| AddExpense.DraftsAgreeOnFields | components/AddExpense.js:96 | Drafts that agree on every field are equal, so the field view of a draft loses nothing. |
| AddExpense.BlankDraftNeverValid | components/AddExpense.js:104-111 | A blank draft is never valid and never reaches the saved batch. |
| AddExpense.DraftEditor.constructor | components/AddExpense.js:10-16 | The screen opens with one blank food draft dated today. |
| AddExpense.DraftEditor.UpdateDraft | components/AddExpense.js:94-98 | Only the named field of draft `index` changes. The length, the other fields of that draft and every other draft are unchanged. |
| AddExpense.DraftEditor.RemoveDraft | components/AddExpense.js:100-102 | An index in range removes exactly that draft, keeping the rest in order. Any other index leaves the drafts unchanged. |
| AddExpense.DraftEditor.AddEmptyDraft | components/AddExpense.js:104-112 | One blank draft of category Other is appended after the unchanged drafts, and the savable batch is the same as before. |
| AddExpense.DraftEditor.SaveAll | components/AddExpense.js:84-92 | There is no batch exactly when no draft is valid. Otherwise the batch is the non-empty filtered list of valid drafts. The drafts are untouched either way. |
| AddExpense.DraftEditor.ApplyImport | components/AddExpense.js:71-76 | A returned non-empty list replaces the drafts wholesale. An empty list or a thrown error leaves them unchanged. |
| AddExpense.DraftEditor.HandleFileUpload | components/AddExpense.js:25-44 | Without a file nothing is called and nothing changes. Otherwise the extraction's non-empty result replaces the drafts. |
| AddExpense.DraftEditor.HandleTextParse | components/AddExpense.js:46-60 | Blank text (all white space) is ignored. Otherwise the extraction's non-empty result replaces the drafts. |
| AddExpense.DraftEditor.HandleCarrierImport | components/AddExpense.js:62-82 | Outside test mode, a missing card id or code aborts before any query, with the drafts unchanged. Test mode installs the three fixed records. A live reply's non-empty converted list replaces the drafts; a failed query or an empty list leaves them. |
| AddExpense.SaveScenarios | components/AddExpense.js:86 | A "12.5"/"coffee" draft is saved, and an "abc"/"coffee" draft is rejected. |
| AddExpense.MockAmountsParse | services/mofService.js:36-58 | The fixed amounts "155", "860" and "1200" parse to 155, 860 and 1200. |
| AddExpense.MockInvoicesAllValid | components/AddExpense.js:86 | Every test-mode record is valid, so saving right after a test import keeps all three. |
| Seqs.DropIndexSpec | components/AddExpense.js:101 | Filtering out position `index` removes exactly that element when it is in range and nothing otherwise. |
| Seqs.FilterAppend | App.js:63 | `filter` distributes over concatenation, so what it keeps stays in order. |
| Seqs.FilterMembers | App.js:63 | An element survives `filter` exactly when it is present and passes the test. |
| Seqs.MapWith | App.js:32-39 | `map` is one-to-one and in order: the i-th result is built from the i-th element. |
| App.ToExpense | App.js:32-39 | The expense takes the fresh id, the `parseFloat` value of the amount, and the draft's date, category, description and merchant. |
| App.ToExpenses | App.js:32-39 | One expense per draft, in order, the i-th built from the i-th draft and the i-th fresh id. |
| App.ToExpenseOfWholeAmount | App.js:35 | A whole-number amount string becomes that number. |
| App.ToExpensesIds | App.js:33 | Each new expense carries its fresh id, and pairwise distinct ids give pairwise distinct expense ids. |
| App.AppendFreshKeepsUnique | App.js:42 | Appending records with pairwise distinct ids that are fresh for the collection keeps all ids unique. |
| App.RemoveIdMembers | App.js:63 | After delete, a record is present exactly when it was present and has another id. |
| App.RemoveIdOrder | App.js:63 | Delete splits over concatenation, so the records kept stay in order. |
| App.RemoveIdUnknown | App.js:63 | Deleting an id that no record has leaves the collection unchanged. |
| App.RemoveIdOfUnique | App.js:63 | With unique ids, deleting the id at position p removes exactly that record and shortens the collection by one. |
| App.RemoveIdKeepsUnique | App.js:61-65 | Delete preserves id uniqueness. |
| App.Ledger.constructor | App.js:10 | The collection starts empty, so its ids are trivially unique. |
| App.Ledger.HandleSaveExpense | App.js:31-59 | The new expenses are appended after the unchanged old collection. Sync is attempted only with a configured script URL, and its failure does not alter the collection. Ids stay unique when the fresh ids are pairwise distinct and unused. |
| App.Ledger.HandleDeleteExpense | App.js:61-65 | A confirmed delete removes every record with the id. An unconfirmed one changes nothing. Either way, unique ids stay unique. |
| App.SaveFromEditor | App.js:31-42 | The batch the editor accepts is what the ledger appends, every amount in it parses, and a rejected batch leaves the ledger untouched. |
| Aggregates.SumAmountsAppend | components/Dashboard.js:9 | The total of no expenses is 0, and the total of a concatenation is the sum of the totals. |
| Aggregates.SelectSnoc | components/ExpenseList.tsx:34 | Appending an expense extends only its own key's group, at the end, so groups keep list order. |
| Aggregates.SumSelectSnoc | components/Dashboard.js:26 | Appending an expense adds its amount to its own key's total and to no other. |
| Aggregates.SelectMembers | components/ExpenseList.tsx:29-36 | An expense is in group k exactly when it is in the list and its key is k. |
| Aggregates.SelectEmptyIff | components/ExpenseList.tsx:31-33 | A group is empty exactly when no expense has its key. |
| Aggregates.KeysSpec | components/Dashboard.js:24-28 | The keys are pairwise distinct and are exactly the keys that occur. There are none exactly when the list is empty. |
| Aggregates.KeysSnoc | components/Dashboard.js:26 | Appending an expense appends its key unless the key was already seen (insertion order). |
| Aggregates.AbsentKeySumsToZero | components/Dashboard.js:26 | An unseen key's running total is 0, as `get(...) \|\| 0` assumes. |
| Aggregates.KeyGroupsNonEmpty | components/ExpenseList.tsx:31-34 | Every key names a non-empty group. |
| Aggregates.SumOverSnoc | components/ExpenseList.tsx:29-36 | Over distinct keys, appending an expense adds its amount and one record to the group totals when its key is listed, and nothing otherwise. |
| Aggregates.PartitionConserves | components/Dashboard.js:23-29 | Over distinct keys covering every expense, the group totals add up to the grand total and the group sizes to the list length. |
| Aggregates.KeysPartition | components/ExpenseList.tsx:29-36 | The keys of a list partition it: group totals add up to the total, and group sizes to the length. |
| ExpenseList.GroupByDate | components/ExpenseList.tsx:29-36 | The reduce yields one group per distinct date, in first-seen order. Each group is exactly that date's expenses, in list order. |
| ExpenseList.StrLessIrreflexive | components/ExpenseList.tsx:39 | No date comes before itself. |
| ExpenseList.StrLessTransitive | components/ExpenseList.tsx:39 | The date order is transitive. |
| ExpenseList.StrLessTotal | components/ExpenseList.tsx:39 | Any two different dates are ordered one way or the other. |
| ExpenseList.InsertDesc | components/ExpenseList.tsx:39 | Insertion adds exactly one copy of the element. |
| ExpenseList.SortDesc | components/ExpenseList.tsx:39 | The sort returns a permutation of its input. |
| ExpenseList.SortDescSorted | components/ExpenseList.tsx:39 | The sort's result is descending and a permutation of its input. |
| ExpenseList.DistinctPermutation | components/ExpenseList.tsx:39 | Sorting a list without repeats gives a list without repeats. |
| ExpenseList.SortedDatesSpec | components/ExpenseList.tsx:39 | `sortedDates` holds each date that occurs exactly once and nothing else, strictly newest first. |
| ExpenseList.BuildSections | components/ExpenseList.tsx:56-58 | One section per sorted date, in order, holding that date's group and its `dayTotal`. |
| ExpenseList.Render | components/ExpenseList.tsx:47-58 | The empty state shows exactly when there are no expenses. Otherwise the sections are the sorted dates, each with its expenses in list order and their total. |
| ExpenseList.SectionsMatchGroups | components/ExpenseList.tsx:56-58 | Sections built from a date list add up, in total and in count, to those dates' groups. |
| ExpenseList.RenderPlacesEach | components/ExpenseList.tsx:29-36 | Every expense is shown in exactly the section of its own date, and no section is empty. |
| ExpenseList.RenderConserves | components/ExpenseList.tsx:56-58 | The sections hold as many expenses as the list, and the day totals add up to the list total. |
| Dashboard.CategoryEntries | components/Dashboard.js:28 | There is one slice per category present, in first-occurrence order, valued at that category's total. |
| Dashboard.EntriesFor | components/Dashboard.js:28 | One slice per listed category, in order, valued at that category's total. |
| Dashboard.TotalsStep | components/Dashboard.js:26 | One `map.set` keeps the running-total invariant: each seen category maps to its total over the prefix, in insertion order. |
| Dashboard.AccumulateTotals | components/Dashboard.js:24-27 | After the `forEach`, the map's keys are the categories present in first-occurrence order, and each maps to its category's total. |
| Dashboard.CategoryData | components/Dashboard.js:23-29 | `categoryData` equals the slice list defined by category totals in first-occurrence order. |
| Dashboard.SumValuesOfEntries | components/Dashboard.js:28 | The slice values add up to the sum of the listed categories' totals. |
| Dashboard.CategoryEntriesSpec | components/Dashboard.js:23-29 | Slices name exactly the categories present, each once (absent categories get no slice). The slice values add up to `totalAmount`. |

## Left out

- The request that `fetchCarrierInvoices` sends in live mode is left out, and so is the 1.5-second test-mode delay. That covers the request parameters, the 30-day window, the timestamp and `fetch` itself: all of it is network I/O and clock. What comes back is the parameter `reply`: no reply, or a response with its `ok` flag, its `code` and its `details`.
- Receipt-image and invoice-text extraction (the Gemini service) is reduced to its outcome, a list or a thrown error. The categories it returns are taken as they come, as in the source, so `Draft.category` is a string that need not be one of the eight labels.
- Sheet sync and settings (the sheet service, the Settings screens) are reduced to an optional script URL and whether the append succeeds.
- Persistence (`localStorage` load and save, the JSON round trip), `index.js`, all rendering, `alert`, `isAnalyzing`, `mode`, `isSyncing` and the modal flags are not modelled: they are storage and display.
- `crypto.randomUUID`, `confirm` and today's date are inputs: fresh ids, a boolean answer and a date string.
- The dashboard's `currentMonthAmount` and the list view's month/day and weekday labels are not modelled. They depend on `Date` parsing and the local time zone.
- The date sort compares dates as strings (lexicographic order). For the ISO `YYYY-MM-DD` dates the app stores, this is the `getTime` comparator's newest-first order. For text that `Date` cannot parse, the source's comparator yields NaN and its order is not modelled.
- `Object.keys` lists integer-like keys first. Dates are never integer-like, so first-seen order is used. A date equal to an `Object.prototype` member name (`constructor`, …) would make the source's `groups[date].push` misbehave; that is not modelled.
- Amounts are exact reals: IEEE rounding in `parseFloat` and in every sum is not modelled, so the conservation laws hold exactly here.
- NumberParsing.ParseFloat: "Infinity" and "-Infinity" are NaN here, while `parseFloat` reads them as infinities. A `0x` prefix is read as 0, as `parseFloat` does.
- StringOps.Lower: only ASCII letters are lowered. JavaScript's full Unicode case mapping, such as the Kelvin sign and accented capitals, is not modelled. All classifier keywords are ASCII or CJK.
- App.ToExpense: requires an amount that `parseFloat` reads. The NaN amount the source would store for any other draft is not modelled. The only caller passes the editor's filtered batch, whose amounts all parse, as App.SaveFromEditor shows.
- App.ToExpenses: requires one id per draft and readable amounts, for the same reason.
- App.Ledger.HandleSaveExpense: requires readable amounts and one id per draft, for the same reason. Its ids are not required to be fresh; it promises id uniqueness only when they are pairwise distinct and unused, which the source leaves to `crypto.randomUUID`.
- AddExpense.DraftEditor.UpdateDraft: requires an index in range. The screen only calls it for a draft it is displaying. In the source, an out-of-range index would give a sparse array with empty slots before a new object holding only the updated field. That is not modelled.
- `getMockInvoices` computes today's date with `toISOString`; here that date is the `today` parameter.
