# Personal budget tracker — a Dafny model

The tracker keeps one budget document for the current month in the browser's
`localStorage`, under the single key `budgetData`. The document holds the month
(`YYYY-MM`), the income, a list of expenses (`id`, `date`, `category`, `amount`,
`note`) and a limit per category. Four handlers change the document, validate
their input first and save the whole document afterwards: add income, add
expense, set limit and reset. Deleting an expense and the month rollover at
start-up change it too. Everything else on the page is derived from the
document: total spent, remaining balance, spending per category, progress bars,
the warning and over-limit colouring, and the expense list newest first.

The model is in five modules:

- `Text` (Text.dfy): ECMAScript `trim`, and the string order used to sort dates.
- `Ledger` (Ledger.dfy): the document, loading with defaults, and the pure
  functions over the expense list (total, spending per category, delete-by-id
  filter, date sort), with lemmas about them.
- `Views` (Views.dfy): the limit classification, the progress percentage and
  the row of the categories table.
- `Tracker` (Tracker.dfy): class `Budget`, whose fields are the document's
  fields plus the storage entry. It has one method per handler, and
  `GetSpentByCategory` as a loop. `Init` is the start-up sequence.
- `JsObject` (JsObject.dfy): the finding below, about looking limits up in a
  plain JavaScript object.

The inputs that come from the clock, the random generator or the user are
method parameters:

- the current month (`getCurrentMonthYear`), once per clock reading: `Init`
  takes the three readings of start-up separately (the default of `loadData`,
  the comparison in `checkMonthReset`, and the fresh document of a rollover);
- today's date and the fresh id of an expense (`new Date()`, `generateId`);
- the number `parseFloat` produced, as `Number = NaN | Num(real)`;
- the answer to the reset `confirm`.

Every mutation that passes validation ends with `Saved()`: storage holds exactly
the in-memory document. A rejected input leaves the document and storage
unchanged.

Behaviour of the code worth knowing:

- One fixed storage key, `budgetData` (script.js:8). A write is not read back
  or retried.
- A loaded document is not repaired or normalised: whatever parsed is used.
- At start-up a document from another month is replaced by a fresh one
  (script.js:59-71).
- The reset clears the limits as well as the income and the expenses.
- There is no operation that deletes a limit, and no reset of the expenses
  alone.
- Expense ids are not guaranteed to be unique. Deleting removes every
  expense with the given id.

## Model

| member | source | states |
|---|---|---|
| `Ledger.NewDocument` | script.js:45-52 | A fresh document is dated with the given month, has income 0, totals 0, and has no category in use and no limit. |
| `Ledger.IsInvalidAmount` | script.js:182-184 | An amount is accepted exactly when it is a number greater than 0. |
| `Ledger.Total` | script.js:198-200 | With positive amounts the total is non-negative, and positive as soon as there is an expense. |
| `Ledger.CategorySpent` | script.js:190-196 | A category that no expense carries has spent 0, which is the zero the code substitutes for a missing key (script.js:113, 229). |
| `Ledger.CategoriesOf` | script.js:190-196 | The set of categories with spending is empty exactly when there are no expenses. |
| `Ledger.WithoutId` | script.js:329 | The filtered list is never longer, and has the same length exactly when no expense carries the id. |
| `Views.MakeRow` | script.js:228-274 | A row keeps its spent and limit; its remaining cell is filled exactly when there is a limit; it is red exactly when that remaining amount is negative; and, for a non-negative limit, it is coloured (orange or red) exactly when its bar is past 90%. |
| `Ledger.LoadDocument` | script.js:28-39 | A parsed stored document is used as it is. With no entry, an empty entry or a parse error, the result is the default: the current month, income 0, no expenses, no limits. |
| `Ledger.NewDocumentWellFormed` | script.js:45-52 | A fresh document satisfies the invariant and totals 0. |
| `Tracker.Budget.Load` | script.js:28-39 | The loaded fields are the defaulted document, and loading writes nothing to storage. |
| `Tracker.Budget.SaveData` | script.js:41-43 | After saving, storage holds the current document. |
| `Tracker.Budget.CheckMonthReset` | script.js:59-71 | If the document's month differs from the month read at script.js:60, the document becomes a fresh one dated by the second reading (script.js:62, 47) and is saved. Otherwise the document and storage do not change, and the month is the one read. |
| `Tracker.Init` | script.js:21-26 | With three separate clock readings: the document after start-up is the loaded one if its month equals the comparison reading, and otherwise a fresh document, which is saved; without a rollover storage is untouched. When the first two readings agree, storage is written exactly when a stored document from another month was replaced. When they differ and storage held no document, the defaulted document is rolled over and saved. |
| `Tracker.Budget.AddIncome` | script.js:75-88 | The income is accepted exactly when `isInvalidAmount` (NaN or ≤ 0, script.js:182-184) is false. If accepted, income grows by exactly the amount and the document is saved. If rejected, income and storage do not change. Expenses, limits and month never change, and the invariant is preserved. |
| `Tracker.Budget.AddExpense` | script.js:91-143 | An empty trimmed category is rejected, then an invalid amount. Otherwise exactly one expense is appended at the end with the given id, date, trimmed category, amount and trimmed note. The warning is the classification of spent-so-far + amount against the category's limit. That warning equals the category's status once the expense is recorded. The expense is appended whatever the warning. Income, limits and month do not change. A rejection changes nothing and gives no warning. |
| `Tracker.Budget.RecordExpense` | script.js:113-136 | The accepted half of the expense form: the warning is the classification of the category's spending so far plus the new amount, and equals the classification once the expense is recorded; exactly that expense is appended at the end and the document is saved. Income, limits and month do not change, and a positive amount keeps the invariant. |
| `Tracker.Budget.SetLimit` | script.js:146-170 | An empty trimmed category is rejected, then a NaN or negative limit; 0 is accepted. Otherwise `limits[category]` is set, creating or overwriting it, every other key keeps its value, and the document is saved. Income, expenses and month do not change. |
| `Tracker.Budget.ResetData` | script.js:173-179 | Once confirmed, the whole document, limits included, becomes the default for the current month and is saved. If not confirmed, nothing changes. |
| `Tracker.Budget.DeleteExpense` | script.js:328-332 | The expenses become the id filter of the old expenses. Income, limits and month do not change, the document is saved and the invariant is preserved. |
| `Tracker.Budget.GetSpentByCategory` | script.js:190-196 | The keys are exactly the categories that occur among the expenses. Each value is the sum of that category's amounts. |
| `Tracker.Budget.Summary` | script.js:202-295 | The view holds: income; the total of all amounts; remaining = income − total, with no clamping; one row per category in limits ∪ spent; each row being spent, limit, limit − spent, percent and status; and the expenses as a permutation ordered newest first. In a well-formed document every percent lies in [0, 100]. |
| `Text.TrimStartSpec` | script.js:98 | `TrimStart` returns the suffix after the leading whitespace. Everything dropped is whitespace, and the result does not start with whitespace. |
| `Text.TrimEndSpec` | script.js:98 | `TrimEnd` returns the prefix before the trailing whitespace. Everything dropped is whitespace, and the result does not end with whitespace. |
| `Text.TrimIsInfix` | script.js:98 | The trimmed string is an infix of the input. |
| `Text.TrimDropsWhitespace` | script.js:98-100 | Only whitespace lies before and after that infix. |
| `Text.TrimEnds` | script.js:98-100 | The trimmed string neither starts nor ends with whitespace. |
| `Text.TrimBlank` | script.js:98-102 | The trimmed category is empty exactly when the raw input is all whitespace. This is the case `if (!category)` rejects. |
| `Text.TrimIdempotent` | script.js:98-102 | Trimming twice is trimming once. |
| `Text.LexLeTotal` | script.js:295 | The date comparison orders any two dates. |
| `Text.LexLeTransitive` | script.js:295 | The date comparison is transitive. |
| `Text.LexLeAntisymmetric` | script.js:295 | Dates that compare equal both ways are equal. |
| `Ledger.TotalConcat` | script.js:198-200 | The total of two lists joined is the sum of their totals. |
| `Ledger.CategorySpentBounds` | script.js:190-200 | With positive amounts, a category's spending lies between 0 and the total. |
| `Ledger.CategorySumIsTotal` | script.js:190-200 | Summing the per-category spending over all categories, each listed once, gives the total expenses. |
| `Ledger.WithoutIdConcat` | script.js:329 | The filter works piecewise over a joined list, so the kept expenses stay in their original order. |
| `Ledger.WithoutIdCounts` | script.js:329 | No expense with the id stays. Every other expense keeps its number of occurrences. |
| `Ledger.WithoutIdMembers` | script.js:329 | An expense is in the result exactly when it was in the list and its id differs. |
| `Ledger.WithoutIdIdempotent` | script.js:329 | Deleting an id twice is the same as deleting it once. |
| `Ledger.WithoutAbsentId` | script.js:329 | Deleting an id that no expense carries leaves the list unchanged. |
| `Ledger.SortByDateDesc` | script.js:295 | The result is a permutation of the expenses, with dates in descending order. |
| `Ledger.DateDescendingPairs` | script.js:295 | In the sorted list, every later row's date is no later than any earlier row's. |
| `Views.LimitOf` | script.js:114 | A category has a limit exactly when one was set for it, and the limit is the stored value. |
| `Views.Classify` | script.js:119-127 | The result is Exceeded iff there is a limit and spent > limit. It is Caution iff there is a limit, spent is not over it and spent > 0.9 × limit. A category without a limit is never flagged. The same function colours the table rows (script.js:232, 270-274). |
| `Views.ClassifyMonotone` | script.js:270-274 | Spending more never moves a category to a milder status. |
| `Views.CategoryRows` | script.js:217-230 | The categories table has exactly one row for each category that has a limit or a recorded expense. |
| `Views.Percent` | script.js:261-266 | The percent is at most 100, and at least 0 when spent ≥ 0. With a positive limit, it is the share of the limit spent, capped at 100. Without a positive limit, it is 100 if anything was spent and 0 otherwise. |
| `Views.WellFormedRow` | script.js:228-266 | In a well-formed document, each row has percent in [0, 100] and spent between 0 and the total. Its remaining is at most its limit. |
| `Views.WarningPredictsRow` | script.js:113-129 | The warning computed before an expense is added equals the status of that category's row once the expense is added. |
| `JsObject.InheritedNameLooksLimited` | script.js:114 | As written, the category "toString" with no limit set still passes `limit !== undefined`. |
| `JsObject.OwnLookupIsIntended` | script.js:230 | For names that are not inherited from `Object.prototype`, the as-written test agrees with the own-key lookup. A category with no limit is never flagged and has no remaining amount. |

## Findings

| source | as written | input that shows it | evidently intended | confidence | as-written member | corrected member |
|---|---|---|---|---|---|---|
| script.js:114 | `budgetData.limits[category] !== undefined` looks the category up on a plain object, prototype chain included (also at script.js:230). | The category "toString" (or "constructor", "valueOf", …) with no limit set: the lookup finds `Object.prototype.toString`. The row then shows "$NaN" as limit and remaining instead of "—". The same lookup in `getSpentByCategory` turns that category's spending into a string. | A category has a limit only when the limit form set one (an own-property lookup). | not executed; high | `JsObject.InheritedNameLooksLimited` | `Views.LimitOf` |

## Left out

- DOM work: building and clearing tables, `alert`, focus, clearing inputs, the warning element's text and visibility, the six-second reset notice. These are presentation. `CheckMonthReset` returns whether the notice would be shown.
- Display order of the categories table: the insertion order of the JS `Set` and `Object.keys` ordering. `Summary` gives the rows as a map keyed by category.
- `formatCurrency`: it is a call into `Intl.NumberFormat`.
- Serialisation: `JSON.stringify` and `JSON.parse` are not modelled. A stored entry is absent, unparsable, or the text written for a document, which reads back as that document.
- Parsed values that are not document-shaped. One whose `monthYear` is not the current month (`{}`, a bare number, an old document missing `expenses`) is replaced by the rollover and causes no failure (script.js:61-62). `null` fails at script.js:61, and a malformed value from the current month fails later when it is used. The model types the parsed value as a document. `WellFormed` is not assumed of a loaded document.
- `generateId`, `getCurrentMonthYear` and the expense date: they read the clock and the random generator, so they are parameters. Id uniqueness is not assumed.
- `parseFloat` itself: the handlers receive its result as `Number`.
- Floating point: amounts are mathematical reals, so there is no rounding, no `Infinity`, and no IEEE `0.9`. `Number` is NaN or a real value, so `parseFloat("Infinity")`, which the code accepts, is not represented.
- `Ledger.SortByDateDesc`: orders dates by code point. `localeCompare` uses locale collation, which gives the same order on the ISO `YYYY-MM-DD` strings the code writes. The stability of `sort` is kept by the definition but not stated as a lemma.
- Prototype-chain lookups: apart from the finding, the model uses own-key lookups throughout. That includes the `spent[c] || 0` in `getSpentByCategory`, which as written concatenates strings for an inherited name. Assigning `limits["__proto__"]` is not modelled either.
- login.js: Firebase sign-in, an asynchronous foreign call, plus DOM wiring and a redirect. Its two-entry name lookup does not feed the budget document.
