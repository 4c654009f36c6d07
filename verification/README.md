# Expense tracker core, modelled in Dafny

This project models the computational core of a personal expense tracker
and proves properties about that model. The core has three parts:

- **The aggregator and the local insight rules** (`src/lib/utils.ts`).
  - `calculateStats` folds a list of transactions into income and expense totals, a balance, a per-category breakdown of expenses and a per-month income/expense trend in calendar order.
  - `generateLocalInsights` applies four threshold rules to those statistics: overspending, a dominant category, a positive balance, and a month-on-month rise in expenses.
- **The rule-based "AI" service** (`src/lib/ai.ts`).
  - `categorizeTransactionWithAI` assigns a category with an ordered list of keyword rules per transaction kind.
  - `generateAIInsights` produces one to three spending tips.
- **The import path of the upload component** (`src/components/FileUpload.tsx`).
  - The file extension selects a parser.
  - `mapToTransactions` turns spreadsheet rows into preview transactions. It reads each field from the first filled column among several spellings, derives income or expense from the sign of the amount, and drops rows without a description or a positive amount.

Files, one module each:

| file | module | contents |
|---|---|---|
| `wrappers.dfy` | `Wrappers` | `Option` |
| `types.dfy` | `Types` | transactions, statistics, insight messages (src/types/index.ts) |
| `text.dfy` | `Text` | ASCII lower-casing, substring containment, the text after the last dot |
| `ratio.dfy` | `Ratio` | JavaScript's `n / d > bound` including division by zero |
| `ledger.dfy` | `Ledger` | sums and filters over transaction lists |
| `utils.dfy` | `Utils` | `calculateStats`, `generateLocalInsights` |
| `ai.dfy` | `Ai` | `categorizeTransactionWithAI`, `generateAIInsights` |
| `file_upload.dfy` | `FileUpload` | the extension dispatch of `handleFile`, `mapToTransactions` |

Modelling conventions:

- **Amounts** are exact `real`s.
- **Quotient tests.** Every test of the form "quotient exceeds bound" is written as `QuotientExceeds(n, d, bound)`. This cross-multiplies by the divisor with the comparison flipped for a negative divisor. A zero divisor behaves as JavaScript's `Infinity`, `-Infinity` or `NaN` would.
- **Dates.** A transaction's date is reduced to the `(year, month)` pair that the aggregator's month label depends on. Months are ordered lexicographically.
- **JavaScript objects used as maps.** `categoryBreakdown` and the monthly table are ordered lists of entries in first-insertion order, which is the order in which a JavaScript object enumerates string keys. This captures the tie-breaks of the `reduce` in the local rules and of the stable sort in the tips.
- **Messages** are tagged datatypes carrying the numbers that the text is formatted from.
- **Runtime and libraries.** The import path takes the JavaScript runtime's `parseFloat`, its date conversion and the clock as parameters (an `Env`). It takes the CSV and Excel libraries as one parameter function.

## Model

| member | source | states |
|---|---|---|
| Text.ContainsAt | src/lib/ai.ts:10-25 | `includes` as modelled holds exactly when the word occurs at some position of the text |
| Text.AfterLastDot | src/components/FileUpload.tsx:45 | the extension is a dot-free suffix of the name; it is preceded by a '.' when the name has one, and is the whole name otherwise |
| Ratio.QuotientExceedsIsDivision | src/lib/utils.ts:67-68 | for a non-zero divisor, the cross-multiplied test agrees with real division `n / d > bound` |
| Ledger.OfKind | src/lib/utils.ts:5-11 | the filtered list is no longer than the input, and each of its elements is an input element of the requested kind |
| Ledger.OfKindMultiset | src/lib/utils.ts:5-11 | the filter is complete: each transaction of the requested kind occurs in the result exactly as often as in the input, and no other transaction occurs |
| Ledger.SumSplitsByKind | src/lib/utils.ts:5-11 | the income sum plus the expense sum is the sum of all amounts |
| Utils.StatsTotals | src/lib/utils.ts:5-13 | income and expense totals partition the total amount; balance = income − expenses; the empty list gives all-zero statistics; non-negative amounts give non-negative totals |
| Utils.StatsSnoc | src/lib/utils.ts:5-11 | appending a transaction adds its amount to the total of its own kind and leaves the other total unchanged |
| Utils.CalculateStats | src/lib/utils.ts:4-47 | specified by its lemmas: totals and balance (`StatsTotals`, `StatsSnoc`), breakdown (`StatsBreakdown`, `BreakdownIgnoresIncome`), trend (`StatsTrend`) |
| Utils.AddTo | src/lib/utils.ts:17-19 | one fold step adds exactly `amount` to the sum of the breakdown's values |
| Utils.AddToGet | src/lib/utils.ts:17-19 | one fold step adds the amount to the entry for its own category (a missing entry counts as 0) and leaves every other entry unchanged |
| Utils.CategoryBreakdown | src/lib/utils.ts:15-20 | specified by `BreakdownKeys`, `BreakdownValue` and `BreakdownTotal`: one entry per distinct category holding that category's sum, the values totalling the folded expenses |
| Utils.BreakdownKeys | src/lib/utils.ts:15-20 | the breakdown's keys are the distinct categories of the expenses, in order of first occurrence |
| Utils.BreakdownValue | src/lib/utils.ts:15-20 | each category present maps to the sum of its expenses; a category absent from the expenses has no entry |
| Utils.BreakdownTotal | src/lib/utils.ts:15-20 | the breakdown's values add up to the sum of the folded expenses |
| Utils.StatsBreakdown | src/lib/utils.ts:15-20 | on the statistics: the keys are the distinct expense categories, each value is that category's expense sum, and the values total `totalExpenses` |
| Utils.BreakdownIgnoresIncome | src/lib/utils.ts:15-20 | inserting an income transaction anywhere changes neither the breakdown nor the expense total |
| Utils.MonthlyData | src/lib/utils.ts:23-34 | specified by `MonthlyDataMonths`, `MonthlyDataFind` and `MonthlyDataSums`: one row per distinct month in order of first occurrence, each holding that month's income and expense sums |
| Utils.MonthlyDataMonths | src/lib/utils.ts:23-34 | the monthly table has one row per distinct month of the input, in order of first occurrence |
| Utils.MonthlyDataFind | src/lib/utils.ts:23-34 | the row of each month present holds that month's income sum and expense sum; a month absent from the input has no row |
| Utils.MonthlyDataSums | src/lib/utils.ts:23-34 | the income and expense columns of the table add up to the income and expense totals |
| Utils.SortByMonth | src/lib/utils.ts:36-38 | sorting the rows is a permutation and keeps both column sums |
| Utils.SortByMonthChronological | src/lib/utils.ts:36-38 | rows with distinct months come out in strictly increasing calendar order |
| Utils.StatsTrend | src/lib/utils.ts:22-38 | the trend is strictly chronological, covers exactly the input's months, and holds each month's own sums; its columns add up to the totals |
| Utils.Largest | src/lib/utils.ts:64-66 | the `reduce` returns one of the entries, and no entry has a larger amount |
| Utils.LargestIsFirstLargest | src/lib/utils.ts:64-66 | the `reduce` picks an entry of maximal amount, and on a tie the earliest one |
| Utils.InsightsForShape | src/lib/utils.ts:49-100 | from statistics whose balance is income − expenses: at most three insights, in strictly increasing rule order; warnings for rules 1 and 4, information for rules 2 and 3 |
| Utils.LocalInsightsShape | src/lib/utils.ts:49-100 | `generateLocalInsights` gives at most three insights, at most one per rule, in rule order, with the kinds above, and never a suggestion |
| Utils.GenerateLocalInsights | src/lib/utils.ts:49-101 | specified by `LocalInsightsShape`, `BalanceInsights`, `LargestCategoryRuleOf`, `LargestCategoryInsight`, `LargestCategoryFires` and `ExpenseTrendInsight`: which of the four rules fire and what each message carries |
| Utils.BalanceInsights | src/lib/utils.ts:53-82 | the overspend warning appears iff expenses > income, and the positive-balance message appears iff income > expenses; they never appear together, and each carries its totals and difference |
| Utils.LargestCategoryInsight | src/lib/utils.ts:61-74 | the dominant-category message names the first category of maximal expense sum and carries its sum and the total; that share passes the 30% test |
| Utils.LargestCategoryFires | src/lib/utils.ts:61-74 | with a positive total, the message appears iff some expense category's share exceeds 30%; with a zero total, it appears iff some category sum is positive |
| Utils.LargestCategoryRuleOf | src/lib/utils.ts:61-74 | for any sign of the expense total, the dominant-category message appears iff there is an expense category and the share of the reduce's pick passes the 30% test under JavaScript division |
| Utils.ExpenseTrendRuleFires | src/lib/utils.ts:84-98 | the trend warning fires iff there are two or more months, the previous month's expenses p ≥ 0, and 5·(latest − p) > p |
| Utils.LatestMonths | src/lib/utils.ts:84-88 | the last two trend rows are the two latest months of the input, in order, and each holds its month's sums |
| Utils.ExpenseTrendInsight | src/lib/utils.ts:84-98 | on transactions: the trend warning appears exactly under the rule above, compares the last two trend rows (the two latest months, by `Utils.LatestMonths`) and reports a strict rise |
| Ai.FirstMatch | src/lib/ai.ts:9-27 | the answer is the fallback or the category of one of the rules |
| Ai.FirstMatchAt | src/lib/ai.ts:9-27 | when rule i is the first rule with a keyword in the text, its category is the answer |
| Ai.FirstMatchNone | src/lib/ai.ts:9-27 | when no rule has a keyword in the text, the answer is the fallback |
| Ai.Categorize | src/lib/ai.ts:5-28 | the category is one of the four income categories for an income, and one of the ten expense categories for an expense |
| Ai.CategorizeSpec | src/lib/ai.ts:5-28 | for the transaction's kind, the category is that of the first rule matching the lower-cased description, else the fallback; the amount is irrelevant |
| Ai.CategorizeIgnoresCase | src/lib/ai.ts:7 | lower-casing the description first changes nothing |
| Ai.KindsDoNotShareLabels | src/lib/ai.ts:9-27 | an income never gets an expense category and an expense never gets an income category |
| Ai.EmptyDescription | src/lib/ai.ts:9-27 | an empty description yields "Other Income" for an income and "Other" for an expense |
| Ai.FoodBeatsCoffee | src/lib/ai.ts:17-18 | a description mentioning food is Groceries even when it also mentions coffee |
| Ai.SalaryOnlyForIncome | src/lib/ai.ts:9-17 | "salary" makes an income Salary but never makes an expense Salary |
| Ai.SortDesc | src/lib/ai.ts:47 | sorting the category entries is a permutation |
| Ai.SortDescSorted | src/lib/ai.ts:47 | the sorted entries are in descending order of amount |
| Ai.SortDescHead | src/lib/ai.ts:47-50 | the first sorted entry is the first entry of maximal amount, the same entry the local rules' `reduce` picks |
| Ai.Recent | src/lib/ai.ts:64 | the recent expenses are the last min(10, n) expenses |
| Ai.TipsFor | src/lib/ai.ts:30-73 | the generator always gives between one and three tips |
| Ai.GenerateAIInsights | src/lib/ai.ts:30-73 | always between one and three tips; the content is given by `AIInsightsShape`, `TopTipIsLargest`, `GeneratedCookingTip` and `GeneratedRecentTip` |
| Ai.AIInsightsShape | src/lib/ai.ts:30-73 | "start tracking" is the whole answer iff the expenses sum to zero; otherwise the top-category tip comes first, followed by the cooking and recent tips when they apply; the final fallback never occurs |
| Ai.TopTipIsLargest | src/lib/ai.ts:41-53 | the top-category tip names a category of maximal expense sum (the first one on a tie) and carries its sum and the expense total |
| Ai.CookingTipFires | src/lib/ai.ts:56-61 | the cooking tip appears iff Dining Out and Groceries both occur with non-zero sums and dining is more than half of the two together |
| Ai.CookingTipNonNegative | src/lib/ai.ts:56-61 | with non-negative amounts: the cooking tip appears iff 0 < groceries < dining |
| Ai.GeneratedCookingTip | src/lib/ai.ts:30-61 | the generator's output contains the cooking tip iff the expenses sum is non-zero and the dining condition holds |
| Ai.RecentTipFires | src/lib/ai.ts:63-70 | the recent tip appears iff there are recent expenses and their sum exceeds 50 per expense; the tip carries their mean |
| Ai.GeneratedRecentTip | src/lib/ai.ts:63-72 | in the generator's output, a recent-average tip appears iff the expenses sum is non-zero and the mean of the last ten (or fewer) expenses exceeds 50, and it carries that mean |
| FileUpload.FormatOf | src/components/FileUpload.tsx:45-58 | CSV iff the lower-cased extension is "csv"; Excel iff it is "xlsx" or "xls"; otherwise refused |
| FileUpload.ExtensionOfJoin | src/components/FileUpload.tsx:45 | the extension of `stem.ext` is `ext` lower-cased, whatever dots the stem holds |
| FileUpload.AfterLastDotLower | src/components/FileUpload.tsx:45 | taking the text after the last dot commutes with lower-casing |
| FileUpload.FormatIgnoresCase | src/components/FileUpload.tsx:45-58 | the format does not depend on the case of the file name |
| FileUpload.DotlessName | src/components/FileUpload.tsx:45-58 | a name without a dot is its own extension, so such a file is read as CSV exactly when its name is "csv" in some case |
| FileUpload.FirstFilled | src/components/FileUpload.tsx:111-128 | the chosen cell is the fallback or the non-empty cell of one of the listed columns |
| FileUpload.FirstFilledAt | src/components/FileUpload.tsx:111-128 | the first filled column in priority order supplies the value |
| FileUpload.FirstFilledNone | src/components/FileUpload.tsx:111-128 | with no listed column filled, the fallback ("", "0" or the current time) is used |
| FileUpload.DescriptionPriority | src/components/FileUpload.tsx:111-115 | "description" wins over "Memo" when both are filled |
| FileUpload.UnamountedRowDropped | src/components/FileUpload.tsx:117-122 | with no amount column filled, the amount is parsed from "0" and the row is dropped |
| FileUpload.DebitColumnIsIncome | src/components/FileUpload.tsx:117-132 | a positive figure read from the "debit" column is recorded as income |
| FileUpload.UndatedRowsAreDatedNow | src/components/FileUpload.tsx:124-128 | a row with no date column gets the current time, and fails iff that conversion fails |
| FileUpload.UndatedRowNeverFails | src/components/FileUpload.tsx:124-137 | when the clock's ISO string converts to itself, a row with no date column is mapped, never failing, and is dated now |
| FileUpload.UndatedFileMaps | src/components/FileUpload.tsx:108-141 | under the same clock condition, a file none of whose rows has a date column maps without failing, every preview record dated now |
| FileUpload.MapRow | src/components/FileUpload.tsx:109-139 | a mapped row's kind and non-negative amount give back the parsed signed number |
| FileUpload.SignedRoundTrip | src/components/FileUpload.tsx:131-132 | the kind (expense iff negative) and the absolute amount together give back the parsed number; the stored amount is non-negative |
| FileUpload.RowKept | src/components/FileUpload.tsx:130-140 | a mapped row survives iff it has a description and its amount parsed to a non-zero number |
| FileUpload.MapAll | src/components/FileUpload.tsx:109-139 | when the mapping succeeds, it maps every row in place; it fails only if some row's date fails to convert |
| FileUpload.Kept | src/components/FileUpload.tsx:140 | the filter's output is no longer than its input, and every element has a description and a positive amount |
| FileUpload.KeptInOrder | src/components/FileUpload.tsx:140 | the filter keeps exactly the passing records, in their original order |
| FileUpload.MapToTransactions | src/components/FileUpload.tsx:108-141 | the mapping fails iff some row's date conversion fails; otherwise the preview is no longer than the input and every record has a description and a positive amount |
| FileUpload.MapToTransactionsSpec | src/components/FileUpload.tsx:108-141 | the mapping fails iff some row's date conversion fails, even on a row that would be dropped; otherwise the output is, in file order, exactly the mapped rows that pass the filter, and it is never longer than the input |
| FileUpload.ImportFileSpec | src/components/FileUpload.tsx:43-70 | an unsupported name is refused without parsing; a preview is the mapping of the selected parser's rows; a failure is a parser rejection or a failed mapping |
| FileUpload.ImportFile | src/components/FileUpload.tsx:43-70 | every previewed transaction has a description and a positive amount |
| FileUpload.ImportIgnoresCase | src/components/FileUpload.tsx:45-58 | the outcome of an import does not depend on the case of the file name |
| FileUpload.ImportOfJoin | src/components/FileUpload.tsx:45-58 | a file `stem.ext` is refused exactly when `ext`, lower-cased, is none of "csv", "xlsx" and "xls", whatever the stem |

## Left out

- React components, UI state, drag-and-drop handlers, previews and alerts: presentation only.
- The API routes and the Prisma persistence layer: HTTP and database plumbing.
- `getAICategoryWithAPI`: a network call to OpenAI.
- The CSV and Excel libraries: parsing is a parameter function that returns rows or a rejection.
- Date parsing and formatting.
  - The model works on `(year, month)` keys.
  - The real code builds a "MMM yyyy" label and sorts by re-parsing it with `new Date`. This only works if the JavaScript engine accepts such labels.
  - Date-to-ISO conversion in the import is a parameter that may fail.
- The clock: the current time is one `Env.now` value for the whole import. The code reads the clock once per undated row.
- Message texts: `formatCurrency`, `toFixed` and string templates. Messages are modelled as tagged values carrying their numbers.
- `generateId` and the localStorage helpers: randomness and browser storage.
- IEEE-754 arithmetic.
  - Sums are exact reals, so rounding, overflow to `Infinity` and signed zero are not modelled.
  - `NaN` appears only where `parseFloat` can yield it; `parseFloat` is the `Env` parameter that returns `None`.
  - NaN amounts inside stored transactions are not modelled.
- Text.LowerChar: `toLowerCase` is modelled for ASCII letters only. Unicode case mappings, such as the Kelvin sign lowering to 'k', are not modelled.
- Object key order.
  - JavaScript enumerates integer-like keys (such as a category named "2024") before other keys, in numeric order.
  - A category named `__proto__` does not create an own property.
  - The model keeps plain insertion order for every key.
  - Category names are assumed not to be names of `Object.prototype` members. The breakdown starts from `{}`, so for a category such as "constructor", "toString", "valueOf" or "hasOwnProperty" the expression `acc[c] || 0` reads an inherited function. That function is truthy, and the entry becomes a string concatenation instead of a sum. `Utils.BreakdownValue`, `Utils.StatsBreakdown` and `Ai.TopTipIsLargest` hold only for categories outside that set. Transactions saved through the API may carry any category (src/app/api/transactions/route.ts:42-50).
- Spreadsheet cells are modelled as text. The Excel library can yield numbers: a numeric cell 0 is falsy and falls through to the next column, while the text "0" does not.
- The `async` and Promise wrappers: incidental.
- Ai.SortDesc: stability is stated only through its first entry, which is the first entry of maximal amount (`SortDescHead`). The relative order of tied entries further down the list is not stated.
- Utils.SortByMonth: chronological order is proved for rows of distinct months, which is what the monthly table produces. Sorting rows that share a month is not characterised.
