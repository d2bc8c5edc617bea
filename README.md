# Expense tracker: the store and the client state, in Dafny

This project models the two pieces of logic of a small expense tracker.

The first is the Flask backend (`backend/app.py`). It keeps two SQLite tables, `expenses` and `categories`. Its endpoints:

- validate a create or update body into a list of messages;
- list expenses filtered by category and by a date range, newest first;
- add, fetch, partially update and delete one expense;
- list the categories by name;
- summarize amounts, as a total and count, optionally broken down by category or by month.

The second is the React component `App` (`frontend/src/App.js`). It caches the expense list and the category table, and holds:

- the active filters;
- a banner error, a loading flag and four modal flags;
- the add/edit form.

Each handler is a state transition. Every `fetch` is replaced by its outcome, given as a parameter: either the JSON envelope the server sent or a thrown error.

Modules, one per file:

- `Basics`: `Option`, and the order in which the database compares TEXT. Dates are TEXT and are compared character by character. It also holds `Join`.
- `Sorting`: an insertion sort over a strict order, proved to return a sorted permutation. It stands for both `ORDER BY` clauses and for Python's `sorted`.
- `Records`: table rows, request bodies, query arguments, the reply envelope and the summary.
- `Validation`: `validate_expense` as a function, with lemmas on what it accepts and refuses.
- `Listing`: the `WHERE` clause and the `ORDER BY date DESC, id DESC` of `get_expenses`.
- `Report`: the folds of `get_summary`, with the proof that the breakdowns partition the rows.
- `Store`: class `ExpenseStore`, the two tables with one method per endpoint. These methods are loops proved against the functions above.
- `Client`: class `App`, with the helpers `getCategoryColor`, the error join and the filter-to-query conversion.

Amounts are exact `real` numbers. What Python's `float()` makes of a body's `amount` is abstracted as `Number(v)` or `NotANumber`. Date validity is the `YYYY-MM-DD` calendar form that `datetime.fromisoformat` accepts.

Behaviours of the code a reader might not expect:

- `amount` must be strictly greater than 0: zero is refused.
- A non-empty category that is not in the categories table is refused with `Invalid category: <name>`. It is never stored.
- The backend validates every body it receives. The browser's own constraint validation of the form inputs (`required`, `type="number"`) is part of the JSX and is not modelled; the lemmas about form bodies say what the backend does with them.
- The client sends its filters through `new URLSearchParams`, which turns a key holding `undefined` into the text "undefined". The state machine sends exactly that request (`Client.ToQueryAsWritten`); see Findings.
- `getCategoryColor` falls back to the literal `#6b7280`, not to whatever colour `other` has. In the fallback table the two coincide: see `Client.FallbackColors`.
- Nothing in `fetchExpenses` discards a stale response, so the model does not either. A completion is applied whatever the current filter.
- The summary endpoint reads only `group_by` and the two dates. It ignores the `category` the client sends along with the other filters.
- A handler that starts a refetch lowers `loading` before that refetch completes. Its `finally` runs right after the refetch is started.

## Model

| member | source | states |
|---|---|---|
| Basics.StrLtTotal | backend/app.py:116-122 | two different TEXT values are always ordered one way or the other, so the date bounds and the date ordering are total |
| Basics.JoinEmptyIff | frontend/src/App.js:120 | a join with ", " is empty exactly when the list is empty or holds one empty message |
| Sorting.SortSorted | backend/app.py:125 | sorting under a transitive order that relates every pair of distinct elements yields a sorted permutation of the input |
| Validation.AmountMessages | backend/app.py:73-82 | at most one amount message, and it comes first; "Amount is required" iff creating without `amount`; "must be a valid number" iff `float()` fails; "must be greater than 0" iff the number is ≤ 0, zero included |
| Validation.CreateAccepted | backend/app.py:69-100 | a create body is accepted iff amount is a number > 0, date is a valid ISO date, and category is absent, empty or a known name |
| Validation.UpdateAccepted | backend/app.py:69-100 | an update body is accepted iff amount and date are each absent or valid, and category is absent, empty or known |
| Validation.UpdateWithoutAmountOrDate | backend/app.py:73-91 | an update body without `amount` and `date` earns only the category message, if any |
| Validation.CategoryMessage | backend/app.py:93-98 | an unknown non-empty category adds exactly `Invalid category: <name>` as the last message; an empty or absent one adds nothing |
| Validation.AcceptedAmountUsable | backend/app.py:160-163 | after validation passes, `float(data['amount'])` succeeds, and on create `amount` and `date` are present |
| Listing.Matching | backend/app.py:110-123 | a row is selected iff it satisfies every non-empty argument: category equality, `date >= start_date`, `date <= end_date` |
| Listing.EmptyArgumentIgnored | backend/app.py:112-122 | an empty argument selects exactly what an absent one does |
| Listing.MatchingUnconstrained | backend/app.py:109-123 | with no active argument every row is selected, in table order |
| Listing.ListedBeforeIsStrictOrder | backend/app.py:125 | `date DESC, id DESC` is irreflexive and transitive |
| Listing.ListedCorrect | backend/app.py:110-135 | the listing holds exactly the matching rows, each once, newest date first and highest id first within a date; `count` is its length |
| Report.TotalSort | frontend/src/App.js:221 | the sum of amounts does not depend on the order of the rows |
| Report.GroupsPartition | backend/app.py:375-381 | the group totals add up to the total and the group counts add up to the row count |
| Report.GroupsKeys | backend/app.py:375-381 | every key occurs once, and the keys are exactly the keys of the rows |
| Report.GroupsExact | backend/app.py:375-381 | each entry's group is the total and the count of the rows with that key |
| Report.ByMonthSorted | backend/app.py:384-391 | `by_month` is in ascending key order, holds the same entries as the loop built, and still sums to the total and the count |
| Report.SummarizeCorrect | backend/app.py:348-391 | total and count of the date-filtered rows; the breakdown asked for partitions them, every group count is ≥ 1, and `by_month` is sorted |
| Report.ListingAgreesWithSummary | backend/app.py:348-371 | without a category filter, the total and count of a listing (the client's header figures) equal the summary's for the same dates |
| Store.PatchFields | backend/app.py:247-265 | an update keeps the id, writes exactly the columns whose keys are present, and applying the same body twice changes nothing more |
| Store.ReplaceByIdRows | backend/app.py:272-278 | `UPDATE ... WHERE id = ?` rewrites the row with that id, leaves every other row as it was, and keeps the table order |
| Store.RemoveIdRows | backend/app.py:308-312 | `DELETE ... WHERE id = ?` keeps exactly the rows with another id, in order, one fewer when the id exists, and changes nothing otherwise |
| Store.Tally | backend/app.py:375-390 | the dictionary loop builds exactly the breakdown that `Report.Groups` specifies |
| Store.ExpenseStore.constructor | backend/app.py:27-67 | a fresh database has no expenses and exactly the seven seed categories with ids 1 to 7 |
| Store.InsertOrIgnoreKeeps | backend/app.py:45-50 | one insert-or-ignore keeps AUTOINCREMENT ids increasing and `name` UNIQUE, keeps the rows already there, adds the name to the set of names, and adds at most the one row with the next id |
| Store.InsertOrIgnoreAllKeeps | backend/app.py:64-67 | inserting several rows keeps both constraints and the earlier rows, and the names become the earlier names plus the seed names |
| Store.InsertOrIgnoreAllAdds | backend/app.py:64-67 | every row that inserting several rows adds is one of the inserted (name, colour) pairs |
| Store.InsertOrIgnoreAllFromEmpty | backend/app.py:45-67 | seeding an empty table with distinct names numbers them 1, 2, 3, ... in order |
| Store.ReplaceByIdNumbered | backend/app.py:272-278 | an update keeps the expense ids increasing, positive and below the next id |
| Store.RemoveIdNumbered | backend/app.py:308-312 | a delete keeps the expense ids increasing, positive and below the next id |
| Store.ExpenseStore.InsertOrIgnoreCategory | backend/app.py:64-67 | one insert-or-ignore changes the table exactly as `Store.InsertOrIgnore` (a name already present changes nothing; a new name is appended under the next id) and keeps the constraints |
| Store.ExpenseStore.InsertOrIgnoreMany | backend/app.py:64-67 | `executemany` inserts the rows one after the other, ending in the state `Store.InsertOrIgnoreAll` specifies, and keeps the constraints |
| Store.ExpenseStore.InitDb | backend/app.py:54-67 | after seeding, the names are the earlier names plus the seven seed names, earlier rows are kept, added rows are seed rows, and on an empty table the result is the seed table with ids 1 to 7 |
| Store.ExpenseStore.ValidateExpense | backend/app.py:69-100 | the appended messages are exactly `Validation.ValidationErrors` for the current category names |
| Store.ExpenseStore.FindIndex | backend/app.py:198-202 | finds a row with the id, and finds none iff no row has it |
| Store.ExpenseStore.ListExpenses | backend/app.py:102-136 | returns `Listing.Listed`: the matching rows in listing order, with `count` their number |
| Store.ExpenseStore.AddExpense | backend/app.py:144-193 | a body with messages is refused with those messages and nothing is inserted; otherwise one row is appended with a fresh id, note defaulting to '' and category to 'other', and returned |
| Store.ExpenseStore.GetExpense | backend/app.py:195-210 | returns the row with that id, or "Expense not found" iff none has it |
| Store.ExpenseStore.UpdateExpense | backend/app.py:221-292 | not found, then validation, then "No fields to update", each leaving the table unchanged; otherwise only that row is patched and returned |
| Store.ExpenseStore.DeleteExpense | backend/app.py:294-316 | a missing id gives "Expense not found" and no change; otherwise exactly the row with that id is removed |
| Store.ExpenseStore.GetCategories | backend/app.py:324-336 | the categories sorted by name, each exactly once |
| Store.ExpenseStore.GetSummary | backend/app.py:344-397 | returns `Report.Summarize` of the rows inside the date bounds; `category` is not read |
| Client.FallbackIsSeed | frontend/src/App.js:40-62 | the fallback table is the seven seed categories, in seed order, with the backend's ids and colours |
| Client.CategoryColor | frontend/src/App.js:216-219 | the lookup never fails and never yields an empty colour |
| Client.CategoryColorFirstMatch | frontend/src/App.js:216-219 | the first category whose name equals the argument exactly decides the colour; an empty colour falls back to '#6b7280' |
| Client.CategoryColorAbsent | frontend/src/App.js:216-219 | a name no category carries gets '#6b7280' |
| Client.FallbackColors | frontend/src/App.js:216-219 | over the fallback table each seed name gets its seed colour, and any other name the colour of `other` |
| Client.ErrorMessage | frontend/src/App.js:120 | the `errors` list joined with ", " when that join is non-empty; a single-message reply shows its message; an empty list shows nothing |
| Client.ValidationMessageShown | frontend/src/App.js:148 | a validation refusal always reaches the banner as its messages joined with ", " |
| Client.FormBodyHasAllKeys | frontend/src/App.js:109 | a form body never earns "Amount is required" or "Date is required" |
| Client.EmptyFormRefused | frontend/src/App.js:191-198 | a body built from the reset form, whose amount text is empty, is refused by the backend, first with "Amount must be a valid number" |
| Client.EditRoundTrip | frontend/src/App.js:180-189 | saving an untouched edit form for an accepted row passes validation and rewrites the row to itself |
| Client.UndefinedLikeAbsent | frontend/src/App.js:455 | under the corrected conversion a key holding `undefined` filters like a missing key |
| Client.AsWrittenDiffersOnlyOnUndefined | frontend/src/App.js:70 | without `undefined` values, the request as written and the corrected request are the same |
| Client.ClearedCategoryHidesEverything | frontend/src/App.js:455 | as written, an emptied category control asks for category "undefined" and lists nothing; corrected, it lists every row |
| Client.ClearedStartDateHidesEverything | frontend/src/App.js:470 | as written, an emptied start-date control excludes every valid date; corrected, it lists every row |
| Client.ClearedEndDateHarmless | frontend/src/App.js:478 | an emptied end-date control, even as written, excludes no valid date |
| Client.ClearedStartDateEmptiesSummary | frontend/src/App.js:86-97 | the report is sent the same filters, so after an emptied start-date control it covers no row and totals 0 |
| Client.ReportIgnoresCategoryFilter | frontend/src/App.js:86-97 | with a category chosen, the report total can differ from the listing total, because the summary ignores `category` |
| Client.App.TotalExpenses | frontend/src/App.js:221 | the total of the cached list is 0 when the list is empty and, when every amount is positive, is positive exactly when the list is not empty |
| Client.App.constructor | frontend/src/App.js:9-26 | the initial state: empty lists, no filters, no modal open, not loading, no error, the empty form |
| Client.App.FetchCategories | frontend/src/App.js:33-64 | a success installs the server's list; a refusal or an exception installs the seed table |
| Client.App.StartFetchExpenses | frontend/src/App.js:66-71 | raises `loading`, clears the banner, and sends the query `new URLSearchParams(f)` builds, "undefined" included; without `undefined` keys that is the intended query |
| Client.App.FinishFetchExpenses | frontend/src/App.js:72-83 | a success replaces the list wholesale, in the order received; a failure keeps it and sets the banner; `loading` is false on every path |
| Client.App.FetchExpenses | frontend/src/App.js:66-84 | start and finish together: the as-written query, no banner after a success, and `data.error` or "Failed to fetch expenses" after a failure |
| Client.App.ResetForm | frontend/src/App.js:191-198 | the form becomes an empty amount, today's date, an empty note and 'other' |
| Client.App.HandleAddExpense | frontend/src/App.js:99-130 | the body sent is the form as it was, all four keys present; a success closes the modal, resets the form, clears the banner and refetches with the current filters as written; a failure changes only the banner; nothing else changes |
| Client.App.HandleUpdateExpense | frontend/src/App.js:132-156 | with no expense being edited, no request is sent and the banner says "Failed to update expense"; otherwise the PUT goes to the edited id with the form as body, and the outcome is handled as for add, also forgetting the edited expense |
| Client.App.HandleDeleteExpense | frontend/src/App.js:158-178 | without confirmation nothing changes; a success refetches with the current filters as written; a failure sets `data.error` or "Failed to delete expense" |
| Client.App.OpenEditModal | frontend/src/App.js:180-189 | remembers the expense, fills the form from it, and opens the edit modal |
| Client.App.SetFilter | frontend/src/App.js:455-478 | writes the key even for an empty choice, so the badge count never drops, and no key ever holds "" |
| Client.App.ApplyFilters | frontend/src/App.js:200-203 | refetches with the current filters as written and closes the dialog |
| Client.App.ClearFilters | frontend/src/App.js:205-209 | empties the filters and refetches with no argument |
| Client.App.FetchSummary | frontend/src/App.js:86-97 | only a success replaces the summary; the request carries `group_by` and the current filters as written |
| Client.App.OpenReportModal | frontend/src/App.js:211-214 | asks for the summary with `group_by` "category" and the current filters, and opens the report modal |

## Left out

- `created_at` and its `CURRENT_TIMESTAMP` default: a clock reading that no operation uses.
- The SQLite driver, connections, commits and the SQL text built from `fields` and `params`: the tables are sequences of records.
- Flask routing, CORS, HTTP status codes, and the 500 replies for unexpected exceptions (a JSON body that is `null`, for example). JSON encoding is left out too, including `jsonify` sorting the keys of `by_category`.
- JSON values that are `null` or not strings (a numeric `date`, a `null` note): bodies carry strings or nothing.
- The full grammar of `datetime.fromisoformat`, including the `Z` to `+00:00` rewrite, which varies between Python versions. Only `YYYY-MM-DD` calendar dates are accepted.
- Floating-point rounding, `NaN` and infinities from `float()`, and `toFixed(2)` display: amounts are exact.
- The browser's constraint validation of the form (`required` on amount, date and category; `type="number" step="0.01"` on amount), which can stop a submit before `handleAddExpense` or `handleUpdateExpense` runs: it belongs to the JSX. The handlers are modelled from the point where they run.
- The row order of the summary query, which has no `ORDER BY`. The model takes table order, which affects only the insertion order of `by_category`.
- Interleaving of overlapping requests. Each awaited `fetch` is one transition given its outcome, and a refetch a handler starts is completed by a later `FinishFetchExpenses`.
- The intermediate `loading = true` states inside one handler. Only the state after the handler's synchronous part is stated.
- JSX rendering, the modal open/close buttons and the form field setters, which each assign one field. Also `console` logging and `date-fns` formatting: today's date is a parameter.
- The mount effect, which only calls `FetchCategories` and `FetchExpenses`.
- The header count `expenses.length`: it is the length of the list and needs no member.
- `test_api.py`: a script that prints live responses.

## Findings

| source | as written | input that shows it | evidently intended | confidence | as-written member | corrected member |
|---|---|---|---|---|---|---|
| frontend/src/App.js:455 | emptying the category control stores `undefined`, and `new URLSearchParams(filters)` (line 70) sends it as the text "undefined" | choose "food", then "All Categories", then Apply: the request is `category=undefined` and the list comes back empty | an emptied control does not constrain the listing | high; not executed | Client.ClearedCategoryHidesEverything | Client.UndefinedLikeAbsent |
| frontend/src/App.js:470 | emptying the start-date control sends `start_date=undefined`, and every `YYYY-MM-DD` date sorts below "undefined" | pick a start date, clear it, then Apply: the list comes back empty | an emptied control does not constrain the listing | high; not executed | Client.ClearedStartDateHidesEverything | Client.UndefinedLikeAbsent |

The as-written request is `Client.ToQueryAsWritten`, and the `App` methods send it, as the code does. The corrected request is `Client.ToQuery`; `Client.AsWrittenDiffersOnlyOnUndefined` shows the two agree whenever no key holds `undefined`, and `Client.UndefinedLikeAbsent` states the intended behaviour. The same stray "undefined" reaches the report: `Client.ClearedStartDateEmptiesSummary`.
