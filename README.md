# Budget category totals of money-mind-api

This project models how the money-mind-api server keeps per-category spending totals for each budget.

The server stores three collections:
- `transactions`, the ledger of spending rows keyed by transaction id;
- `budgets`, each an owner, a target amount and an inclusive date window;
- `budget-transactions`, one aggregate per budget holding `categoryTotals`, a map from category label to amount.

Two paths keep the totals up to date:
- **Incremental.** Creating, re-categorising or deleting ledger rows adjusts the totals of the *first* budget whose owner matches and whose window contains the row's date.
- **Full recompute.** Creating or updating a budget sums every matching ledger row into a fresh set of totals. It starts from the five categories of `CATEGORY_LIST`, each at zero.

Two pure helpers sit beside these paths:
- `safeAmount` coerces a value to a number, maps NaN to 0 and rounds to two decimals.
- The provider import files each provider record under one of the five categories by a label table, then upserts the rows into the ledger.

## Modules

- `Outcomes`: `Option`, `Result` and the failure kinds with their HTTP status codes.
- `Dates`: date strings ordered lexicographically, as the store compares them, and inclusive windows.
- `Amounts`: JavaScript's `Number` on undefined, null, booleans, decimal numbers and strings, `toFixed(2)` rounding, `safeAmount`, the text `toFixed(2)` produces for a cents amount, and the shortest text `String` gives it.
- `Records`: the documents, the `Category` datatype and `CategoryList`.
- `Sums`: the sum of an integer-valued map.
- `Recompute`: the full recompute, as a specification function and as the summing loop.
- `Incremental`: first-match lookup, one-entry adjustments, the batch-create delta dictionary and its loop, category change and delete.
- `Classifier`: the provider label table and the provider-record to ledger-row mapping.
- `BudgetRules`: create validation, the patch and its fallbacks, and the aggregates create and update write.
- `Store`: class `Db` with the three collections as fields, and one method per route handler.

Amounts in the route layer are integers counting cents. A total is `Sum(cents)` or `NotANumber`. `NotANumber` arises only when a recompute meets a row whose category is not one of the five: that row adds to an entry that does not exist, giving `undefined + n`. A category named after a member every JavaScript object inherits (`toString`, `constructor`, `__proto__` and the like) reads that member instead of `undefined`; the source then stores a string, or 0, where the model keeps counting as for any other name (see "## Findings"). `(x || 0)` reads a missing entry, NaN and 0 alike as 0 (`Records.Numeric`).

## Model

| member | source | states |
|---|---|---|
| Outcomes.StatusCode | src/routes/transactions.js:104-114 | a bad request is 400, a missing document 404 and a failure inside the handler 500, each code belonging to one failure |
| Dates.LexLeTransitive | src/routes/transactions.js:121-125 | the string order the store's range filters use is transitive |
| Dates.LexLeAntisymmetric | src/routes/transactions.js:121-125 | two dates each at most the other are equal |
| Dates.LexLeReflexive | src/routes/transactions.js:121-125 | every date is at most itself |
| Dates.BoundsIncluded | src/routes/budgets.js:56-60 | both ends of a window lie inside it (the filters are `>=` and `<=`) |
| Dates.OutsideExcluded | src/routes/budgets.js:56-60 | a date strictly before the start or strictly after the end lies outside |
| Amounts.RoundToCents | src/helper/safeAmount.js:4 | the result is the amount at two decimals, exact when it has at most two, otherwise nearest with ties away from zero |
| Amounts.RoundHalfUp | src/helper/safeAmount.js:4 | the rounding is the nearest hundredth, a half going away from zero |
| Amounts.CentsUnique | src/helper/safeAmount.js:4 | the rounding of a value to cents is unique |
| Amounts.SafeAmount | src/helper/safeAmount.js:1-5 | a value whose `Number` is NaN gives 0; any other gives its rounding to cents |
| Amounts.SafeAmountOfCents | src/helper/safeAmount.js:2-4 | a number already in whole cents comes back unchanged |
| Amounts.SafeAmountIdempotent | src/helper/safeAmount.js:4 | applying `safeAmount` to its own result changes nothing |
| Amounts.FormatCentsRoundTrip | src/routes/budgets.js:150 | the `toFixed(2)` text of a cents amount reads back as the same amount through `Number` and `safeAmount` |
| Amounts.TwoDecimalStringKept | src/helper/safeAmount.js:2-4 | the numeric string "45.00" comes back as 45.00 |
| Amounts.NonNumericText | src/helper/safeAmount.js:2-4 | a string with no surrounding white space whose first character is not a digit, a sign, a point or the "I" of `Infinity` reads as NaN, so `safeAmount` gives 0 |
| Amounts.NumberTextRoundTrip | src/routes/budgets.js:64 | the text `+` gives a number next to a string reads back through `Number` and `safeAmount` as the same amount |
| Amounts.NumberTextShortest | src/routes/budgets.js:64 | that text has a point exactly when the amount is not whole, and no trailing zero after the point |
| Amounts.NumberTextExamples | src/routes/budgets.js:64 | 12.50 is written "12.5", 12.00 "12" and -12.05 "-12.05" |
| Amounts.NatToDigitsValue | src/routes/budgets.js:150 | the decimal digits of a whole number read back as that number |
| Amounts.UnsignedTextValue | src/routes/budgets.js:150 | the unsigned text of a cents amount parses to that many hundredths |
| Records.CategoryListExact | src/constants/constant.js:6 | the list holds exactly the five category labels, each once |
| Sums.SumMapRemove | src/routes/budgets.js:62-65 | a sum over a map is the value of any one key plus the sum over the rest |
| Sums.SumMapUpdate | src/routes/transactions.js:136-137 | replacing one value shifts the sum by the difference |
| Recompute.SumByCategory | src/routes/budgets.js:54-65 | the summing loop yields exactly the recompute specification: each listed category is the sum of the owner's in-window rows filed under it, and any other category met is NaN |
| Recompute.AddToTotalAsWritten | src/routes/budgets.js:64 | `+=` as written changes only the added-to entry; it becomes text exactly when it was text or names an absent inherited member, that text ends with the amount's number text, a number entry grows by the amount, and an absent `__proto__` gets no entry |
| Recompute.AddToTotalAsWrittenAgrees | src/routes/budgets.js:64 | for a name present in the map or not inherited, the `+=` as written and the corrected addition agree |
| Recompute.ToStringEntryText | src/routes/budgets.js:64 | adding 12.50 to an absent "toString" stores the member's text followed by "12.5" |
| Recompute.InheritedCategoryIsText | src/routes/budgets.js:64 | as written, a 12.50 "toString" row makes its entry the member's text followed by "12.5" and a "__proto__" row stores nothing, where the corrected recompute gives NaN |
| Recompute.EmptyLedgerTotals | src/routes/budgets.js:54 | with no rows, the totals are the five categories at zero |
| Recompute.ZeroWhenNoMatch | src/routes/budgets.js:54-65 | a budget with no in-window rows gets all five categories at zero |
| Recompute.RecomputeStep | src/routes/budgets.js:62-65 | adding one row to the summed set adds its amount to its own category only |
| Recompute.SplitByCategory | src/routes/budgets.js:62-65 | when every in-window row is listed, the per-category sums add up to the sum of all in-window rows |
| Recompute.RecomputeGrandTotal | src/routes/budgets.js:62-65 | the five recomputed totals add up to the total of the in-window rows |
| Recompute.BoundaryRowCounted | src/routes/budgets.js:56-60 | a row dated on either end of the window is counted |
| Recompute.OutsideRowIgnored | src/routes/budgets.js:56-60 | a row dated outside the window does not change any total |
| Recompute.LedgerSumRemove | src/routes/budgets.js:62-65 | the in-window sum is one row's contribution plus the sum over the rest |
| Incremental.FirstMatch | src/routes/transactions.js:121-128 | the budget found is the first with the row's owner whose window holds the date; none is found only when no budget does |
| Incremental.MatchedBudgetCountsRow | src/routes/transactions.js:121-128 | the budget a row is matched to would count that row in its own recompute |
| Incremental.Adjust | src/routes/transactions.js:136-137 | the entry becomes the old entry (missing or NaN read as 0) plus the delta, and no other entry changes |
| Incremental.AdjustGrandTotal | src/routes/transactions.js:136-137 | one adjustment moves the sum over all categories by exactly the delta |
| Incremental.MoveConserves | src/routes/transactions.js:213-216 | a category change lowers the old category and raises the new one by the amount, keeps the sum over categories, leaves a same-category change net zero, and changes no other entry |
| Incremental.AdjustAsWritten | src/routes/transactions.js:136-137 | as written, with `+ amount` or `- amount`: an absent inherited name becomes 0 whatever the amount (for `__proto__`, nothing is stored); everywhere else it agrees with the corrected adjustment by the signed amount |
| Incremental.InheritedCategoryLosesAmount | src/routes/transactions.js:213-216 | moving 12.50 from "Shopping" to "toString" loses the amount as written and keeps it in the corrected move |
| Incremental.SubtractChangesOneEntry | src/routes/transactions.js:266-268 | a delete lowers the row's category by the amount and changes no other entry |
| Incremental.LedgerWrites | src/routes/transactions.js:117-119 | write i is record i's id with its row: the record's fields, the amount through `safeAmount` |
| Incremental.UpsertSpec | src/routes/transactions.js:117-119 | after the writes, an id holds the row of its last write, and ids not written keep their row |
| Incremental.UpsertIdempotent | src/routes/plaid.js:77-83 | writing the same rows again leaves the ledger as it was, so a re-post or re-import duplicates no row |
| Incremental.AssignedIsBudget | src/routes/transactions.js:121-128 | a record is only assigned to an existing budget |
| Incremental.UnassignedSumsZero | src/routes/transactions.js:127-137 | the batch sum for a budget and category no record was assigned to is zero |
| Incremental.DeltasSpec | src/routes/transactions.js:108-138 | the dictionary has an entry exactly for the budgets some record was assigned to; each category in it is the stored total plus the batch sum assigned to it, and untouched entries keep their stored value |
| Incremental.BatchStep | src/routes/transactions.js:110-138 | one more record extends the queued writes and the dictionary by that record alone |
| Incremental.CollectBatch | src/routes/transactions.js:110-138 | the validation loop fails with 400 exactly when some record lacks a field; otherwise it yields the queued writes and the delta dictionary |
| Incremental.PostedTotals | src/routes/transactions.js:143-149 | after the merge, each affected budget's category holds the prior total plus its batch sum; other categories, other budgets and other aggregate fields are unchanged |
| Incremental.RepostCountsTwice | src/routes/transactions.js:117-137 | posting the same batch twice leaves one row per id but adds each amount to the totals twice |
| Incremental.RecategorizedConserves | src/routes/transactions.js:208-216 | a category change alters only the matched budget's aggregate, and keeps its sum over categories |
| Incremental.UnbookedChangesOneEntry | src/routes/transactions.js:257-268 | a delete fails with 500 exactly when the matched budget has no aggregate; otherwise it lowers one entry of one aggregate by the amount |
| Classifier.Categorize | src/routes/plaid.js:92-120 | a known primary label files under the table's category; a missing, empty or unknown one under Other |
| Classifier.MappingReachesEveryCategory | src/routes/plaid.js:100-117 | the label table reaches all five categories, and a known label files as the table says |
| Classifier.AsWrittenAgrees | src/routes/plaid.js:119 | the lookup as written agrees with the own-key lookup exactly on labels that are not inherited member names |
| Classifier.InheritedLabelEscapes | src/routes/plaid.js:119 | the label "toString" yields an inherited member, not a category, in the lookup as written |
| Classifier.ImportWrites | src/routes/plaid.js:68-75 | one row per provider record: id, owner, description and date carried over, amount at two decimals, category the record's classification and so one of the five |
| Classifier.ImportKeepsCategoriesListed | src/routes/plaid.js:77-83 | importing never puts a category outside the five into the ledger |
| BudgetRules.CreatedAggregate | src/routes/budgets.js:68-76 | the created aggregate carries the request's fields, its amount unchanged by `toFixed(2)`, and the recomputed totals |
| BudgetRules.FindBudget | src/routes/budgets.js:128-130 | the position found holds the id, and none is found only when no budget has it |
| BudgetRules.RemoveBudget | src/routes/budgets.js:186 | exactly the budgets with another id remain |
| BudgetRules.PatchBudget | src/routes/budgets.js:134 | a patch never changes the budget's id |
| BudgetRules.UpdatedAmountMeaning | src/routes/budgets.js:150 | the amount text is never empty, so the fallback never fires; it is "NaN" exactly when the patch has no amount, and otherwise reads back as the patched amount |
| BudgetRules.RepeatedPatchWindow | src/routes/budgets.js:134-139 | a repeated patch recomputes over the same window exactly when it neither changes the owner nor empties a date |
| BudgetRules.RepeatedUpdateSameTotals | src/routes/budgets.js:136-153 | repeating such an update over an unchanged ledger gives identical totals |
| BudgetRules.EmptyDateNotRepeatable | src/routes/budgets.js:134-138 | a patch emptying `fromDate` stores "" but recomputes from the old date |
| Store.Db.PostTransactions | src/routes/transactions.js:99-155 | 400 with nothing written for a missing or empty array or any incomplete record; otherwise the rows are upserted and the totals merged as the delta specification says; budgets and aggregates stay paired |
| Store.Db.PatchTransactionCategory | src/routes/transactions.js:187-224 | 400 for an empty category and 404 for an unknown id, both with no change; otherwise the row is re-filed and the amount moved within its budget's aggregate, if there is one |
| Store.Db.DeleteTransaction | src/routes/transactions.js:246-275 | 404 with no change for an unknown id; otherwise the row is removed, and then either its amount comes out of its budget's totals or, with no aggregate, 500 |
| Store.Db.TransactionsByBudget | src/routes/transactions.js:358-375 | 400 for a missing parameter; otherwise exactly the owner's rows dated in the inclusive window, their amounts unchanged by normalisation |
| Store.Db.CreateBudget | src/routes/budgets.js:44-82 | 400 with nothing written for a falsy field; otherwise the budget is appended and its aggregate holds the recomputed totals |
| Store.Db.UpdateBudget | src/routes/budgets.js:123-160 | 404 for an unknown id with no change; otherwise the budget is patched, then the aggregate rewritten with totals recomputed over the patched window, or 500 when it has no aggregate |
| Store.Db.DeleteBudget | src/routes/budgets.js:183-193 | the budget and its aggregate are gone, with no existence check, one budget fewer when the id was there, and the ledger is untouched |
| Store.Db.ImportTransactions | src/routes/plaid.js:50-89 | 400 without a token and 500 when the provider fails, both with no change; otherwise the mapped rows are upserted and no total changes |
| Store.PatchKeepsIds | src/routes/budgets.js:134 | patching a budget keeps the set of budget ids |
| Store.RemoveKeepsUnique | src/routes/budgets.js:186 | removing a budget keeps the ids distinct |
| Store.RemoveKeepsMatches | src/routes/budgets.js:186 | removing a budget keeps the others in order, so every row not matched to it keeps its match |
| Store.RemoveCount | src/routes/budgets.js:186 | with distinct ids, removing a budget deletes exactly one document when the id is found and none otherwise |
| Store.RemoveDropsId | src/routes/budgets.js:186-187 | removing a budget drops exactly its id, matching the aggregate removed with it |
| Store.PostKeepsConsistent | src/routes/transactions.js:143-149 | a batch only creates aggregates for existing budgets |

## Left out

- Express routing and the response bodies: each handler returns `Ok` or a failure kind, and `Outcomes.StatusCode` gives the status.
- The store's internals. Each handler runs atomically on in-memory maps, so concurrent requests and their races are not modelled.
- The store's batch `set` with merge on a ledger row: every field is written, so the row is replaced.
- The order in which the store returns matching budgets. The model takes creation order for `docs[0]`.
- Store failures other than a missing aggregate document. Any other rejected write would give 500 in the source.
- String amounts in transaction requests. `+` would concatenate the string onto the running total.
- Request amounts with more than two decimals. The source rounds only after adding; the model's request amounts are whole cents.
- Binary floating point. `toFixed` rounds the exact binary value (1.005 becomes "1.00"); the model rounds the decimal value.
- `Number` on exponent, `Infinity`, hexadecimal, binary and octal (`0x`, `0b`, `0o`) literals. The model reads these strings as NaN.
- Amounts.NumberText: writes every amount in plain decimals. JavaScript switches to exponent notation from 1e21 on, an amount far beyond any budget.
- `Number` on arrays and objects (`[5]` gives 5). No request value of that kind is modelled.
- Recompute.SumByCategory: for a category named after an inherited member, the model gives NaN, as for any other category outside the list, while the source stores a string: the member's text followed by the amounts' number texts, or nothing for `__proto__`. The model keeps the corrected addition; `Recompute.AddToTotalAsWritten` models the source's (see "## Findings").
- Incremental.Adjust: an absent category named after an inherited member starts from 0 in the model; the source reads the member, stores 0 and so drops the amount (for `__proto__`, stores nothing). The store's handlers use the corrected adjustment; `Incremental.AdjustAsWritten` models the source's (see "## Findings").
- Incremental.MoveConserves: holds for the corrected move. As written, a move to an absent inherited name loses the amount (`Incremental.InheritedCategoryLosesAmount`).
- A budget-create amount given as a string. `toFixed` would throw after the budget document is written.
- Patch fields other than owner, title, amount and the two dates. The source writes whatever the body holds.
- A string amount in a budget patch.
- The provider's network calls and the one-year window taken from the clock. The provider's answer is a parameter, `None` when the call failed.
- A missing `userId` in the import. The store would reject the undefined field.
- The GET list and single-document endpoints, `src/routes/users.js`, `src/routes/register.js`, `src/routes/budget-transactions.js`, and the server bootstrap and configuration.
- Recompute.RecomputeGrandTotal: holds only when every in-window row has a listed category. An unlisted category's total is NaN and is left out of the sum over the five.
- Date order compares characters as code points. The store compares UTF-8 bytes, which gives the same order for the ASCII dates the API uses.

## Findings

| source | as written | input that shows it | evidently intended | confidence | as-written member | corrected member |
|---|---|---|---|---|---|---|
| src/routes/transactions.js:136, 215, 267 | `(categoryTotals[c] \|\| 0) + amount` reads an inherited member when `c` names one and the totals have no such entry; the sum is text, `safeAmount` turns it into 0, and the amount is lost | a category change of a 12.50 "Shopping" row to "toString" | the amount moves to the new category as to any category not yet in the totals | high, not executed | Incremental.InheritedCategoryLosesAmount | Incremental.Adjust |
| src/routes/budgets.js:64, 145 | `categoryTotals[txn.category] += amount` on an inherited name appends the number's text ("12.5" for 12.50) to the member's text, so the stored total is a string; on `__proto__` nothing is stored | a ledger row filed under "toString" inside the budget's window | the category is totalled like any other category outside the list | medium, not executed | Recompute.InheritedCategoryIsText | Recompute.AddToTotal |
| src/routes/plaid.js:119 | `categoryMapping[primaryCategory] \|\| "Other"` reads the label as a property of an object literal, so names inherited from `Object.prototype` find a function | a provider record whose primary label is "toString" | any label outside the table files under "Other" | medium, not executed | Classifier.InheritedLabelEscapes | Classifier.Categorize |
