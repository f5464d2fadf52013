# Student expense ledger

A Dafny model of the expense ledger at the heart of the Student Expense Dashboard (`app.js`).
The application keeps an in-memory list of expense records. Each record has an id, a name, an
integer amount, a category tag, a date, a note, a vote score and a creation time. The newest
record comes first. The handlers change that list: add, edit, delete, up-vote, down-vote and
clear. Every render step computes a view from it:

- the statistics cards: total spend, spend this month, total absolute votes;
- the three charts: spend per category, spend in the latest six months with data, spend over
  the last seven days;
- the expense table: filtered by category and sorted;
- the five most-voted records;
- the per-category breakdown;
- the quick-statistics panel: maximum, minimum, rounded average and the most frequent category.

Modules:

- `Expenses` (`expense.dfy`):
  - the record and the form draft;
  - dates as day numbers, and the calendar month of a day;
  - lookup of the first record with a given id;
  - `String.prototype.trim` over the ECMAScript white-space and line-terminator characters.
- `Sorting` (`sorting.dfy`): the stable sort that every view uses. It is an insertion sort,
  ascending on an integer key; a descending comparator `b.x - a.x` is the ascending sort on
  `-x`.
- `Tally` (`tally.dfy`): the dictionary-building `forEach` loops (`categoryData`,
  `monthlyData`, `categoryCount`). These are one `GroupBy` loop. It keeps keys in
  first-insertion order (the order `Object.keys` returns for these keys) and adds a weight per
  record. The module also holds the sums the results are specified by and the lemmas relating
  them.
- `Ledger` (`ledger.dfy`):
  - the class `ExpenseLedger`, whose `expenses` field the handlers reassign;
  - the pure functions `Edited`, `Withdrawn` and `Voted` that specify the handlers;
  - the frame, inverse and idempotence lemmas about those functions.
- `Stats` (`stats.dfy`): the statistics cards and the quick-statistics panel.
- `Charts` (`charts.dfy`): the data behind the three charts.
- `Lists` (`lists.dfy`): the table rows, the top-voted list and the category breakdown.

Modelling choices:

- **Dates.** A date is a day number (days since 1970-01-01). The month of a day is computed
  with the proleptic Gregorian days-to-civil algorithm. It is encoded as
  `12 * year + (month - 1)`, so the monthly chart's comparator
  `(a.year - b.year) || (a.month - b.month)` becomes ordering by that index. "Now" and "today"
  are parameters.
- **Inputs taken as given.** Ids are parameters, and `Add` requires that no record already has
  the id. The creation time is an integer parameter.
- **Averages.** `Math.round(sum / n)` is computed in integers as `(2 * sum + n) / (2 * n)`: the
  integer nearest the exact quotient, halves rounded up, which is what `Math.round` gives when
  the quotient is represented exactly.
- **No validation.** `handleAddExpense` and `handleEditExpense` (app.js:111-170) do no
  validation: they store whatever the form yields, with name and note trimmed. `Add` and
  `Edit` therefore accept any draft.
- **Sorting.** Every `sort` in the source is stable, and so is the model's: `SortByStable`
  states that records sharing a sort key come out in their input order, which fixes the order
  of ties in the table, the breakdown and the top-voted list.

## Model

| member | source | states |
|---|---|---|
| Expenses.MonthOf | app.js:234-236 | the calendar month (year and month) of a day number, as the index `12 * year + (month - 1)`, by the days-to-civil algorithm; read through the boundary lemmas below |
| Expenses.MonthOfAroundEpoch | app.js:387-390 | 1969-12-31 is in December 1969, 1970-01-01 in January 1970, 1970-02-28 in February and 1970-03-01 in March |
| Expenses.MonthOfLeapDays | app.js:387-390 | 2000-02-29 is in February 2000 and 2000-03-01 in March; 1900-02-28 is in February 1900 and the next day, 1900-03-01, in March |
| Expenses.MonthOfYearEnd | app.js:387-390 | 2024-12-31 is in December 2024 and 2025-01-01 in January 2025 |
| Expenses.CompareMonths | app.js:396 | the comparator `(a.year - b.year) || (a.month - b.month)` |
| Expenses.CompareMonthsIsIndexOrder | app.js:396 | with months 0..11, the comparator is negative (zero) exactly when the first month index is smaller than (equal to) the second, so sorting by the index is sorting with the comparator |
| Expenses.IndexOf | app.js:160 | `findIndex` by id: absent exactly when no record has the id; otherwise an index holding the id with no earlier record holding it |
| Expenses.Trim | app.js:116 | `String.prototype.trim`: the string with its leading and trailing ECMAScript white space removed; characterised by the next two lemmas |
| Expenses.TrimCharacterized | app.js:116 | trimming removes a prefix and a suffix made only of white space, and what remains neither starts nor ends with white space |
| Expenses.TrimIdempotent | app.js:165 | trimming an already trimmed string changes nothing |
| Sorting.SortBy | app.js:468-476 | the sorted copy is a permutation of its input (same length, same multiset) ordered by ascending key; stability is stated by `SortByStable` |
| Sorting.Having | app.js:468-476 | the elements with a given key, in their order |
| Sorting.InsertStable | app.js:468-476 | inserting an element places it after every element with the same key |
| Sorting.SortByStable | app.js:468-476 | the sort is stable: for every key, the elements with that key come out in the order they went in |
| Sorting.HavingPrefix | app.js:549 | cutting a list to a prefix keeps, for every key, a prefix of the elements with that key |
| Sorting.SortBySortedIsIdentity | app.js:474 | sorting an already ordered list (in particular with the constant comparator of the default case) returns it unchanged, because the sort is stable |
| Sorting.FirstMinIndex | app.js:626 | the position of the least key, with every earlier key strictly greater |
| Sorting.SortByHead | app.js:626 | the head of the sorted list is the first element with the least key, so ties go to the earlier element |
| Tally.GroupBy | app.js:365-371 | the dictionary's keys are the keys present, each once, in first-occurrence order, and each entry holds the sum of the weights of the records with that key; the result is `Tallied` |
| Tally.Tallied | app.js:365-371 | the dictionary as a value: one entry per key in first-occurrence order, holding its key's sum |
| Tally.TalliedUnique | app.js:365-371 | the first-occurrence keys and the per-key sums determine the dictionary |
| Tally.FirstOccurrencesSpec | app.js:366-369 | the dictionary keys are distinct, every record's key is among them, and each of them is some record's key |
| Tally.SumOfWhere | app.js:232-238 | filtering by a key and then summing equals summing only the records with that key |
| Tally.Partition | app.js:365-371 | summing the per-key sums over distinct keys equals summing the records whose key is among them |
| Tally.TalliedAmounts | app.js:365-371 | the amounts of a correct dictionary with distinct keys add up to the sum over the records whose key is present |
| Tally.SumWhereInAll | app.js:231 | when every record's key is present, that sum is the sum over all records |
| Tally.PermutedBuckets | app.js:589 | sorting the dictionary's entries keeps the same entries and the same keys, still distinct |
| Tally.PermutedTallies | app.js:589 | sorting the dictionary's entries keeps each entry equal to its key's sum |
| Ledger.ExpenseLedger.constructor | app.js:26-31 | the list starts as the saved snapshot, or empty when nothing was saved |
| Ledger.NewExpense | app.js:114-123 | the record the add form builds: the given id, trimmed name and note, the form's amount, category and date, zero votes and the given creation time |
| Ledger.ExpenseLedger.Add | app.js:111-125 | the new record (trimmed name and note, zero votes, the given id) is at index 0, every old record moves one place with its order kept, the length grows by one, unique ids stay unique and the total spend grows by the new amount |
| Ledger.ExpenseLedger.Edit | app.js:156-170 | the new list is `Edited` of the old one, and unique ids stay unique |
| Ledger.Edited | app.js:160-170 | the list after an edit: the first record with the id overwritten with the form fields (name and note trimmed), or the list unchanged; characterised by `EditedFrame` |
| Ledger.EditedFrame | app.js:160-170 | an absent id changes nothing; otherwise only the found record changes, keeping id, votes and creation time, with name, amount, category, date and note from the form (name and note trimmed) |
| Ledger.EditedIdempotent | app.js:160-170 | submitting the same edit twice gives the same list as submitting it once |
| Ledger.ExpenseLedger.Delete | app.js:179-182 | the new list is `Withdrawn` of the old one; an absent id changes nothing; with unique ids a present id shortens the list by one; unique ids stay unique |
| Ledger.Withdrawn | app.js:182 | `filter(e => e.id !== id)`; characterised by the next four lemmas |
| Ledger.WithdrawnMembers | app.js:182 | the kept records are exactly the records whose id differs |
| Ledger.WithdrawnAbsent | app.js:182 | deleting an id no record has returns the list unchanged |
| Ledger.WithdrawnAppend | app.js:182 | deletion distributes over concatenation, so the relative order of the kept records is the original order |
| Ledger.WithdrawnUnique | app.js:182 | with unique ids, deleting a present id removes exactly the record at its index and the length drops by one |
| Ledger.ExpenseLedger.Upvote | app.js:189-196 | the new list is `Voted` of the old one by +1, and unique ids stay unique |
| Ledger.ExpenseLedger.Downvote | app.js:198-205 | the new list is `Voted` of the old one by -1, and unique ids stay unique |
| Ledger.Voted | app.js:190-201 | the list after adding a delta to the votes of the first record with the id, or the list unchanged; characterised by `VotedFrame` |
| Ledger.VotedFrame | app.js:189-205 | an absent id changes nothing; otherwise only the votes of the first record with that id change, by exactly the given amount |
| Ledger.VotedInverse | app.js:189-205 | a vote followed by the opposite vote on the same id restores the list, so an up-vote and then a down-vote cancel out |
| Ledger.VotedKeepsSpending | app.js:189-205 | voting changes neither the total spend nor any per-key spend |
| Ledger.ExpenseLedger.Clear | app.js:208-211 | the list becomes empty |
| Stats.Total | app.js:231 | the sum of all amounts |
| Stats.MonthToDate | app.js:232-238 | the sum of the amounts of the records whose date lies in the month and year of `now` |
| Stats.TotalAbsVotes | app.js:239 | the sum of the magnitudes of the vote scores |
| Stats.MonthToDateIsMonthBucket | app.js:232-238 | month-to-date spend is the sum of the amounts of the records in the month of `now` |
| Stats.TotalAbsVotesSpec | app.js:239 | the total of absolute votes is never negative, and it is zero exactly when every vote score is zero |
| Stats.TotalBounds | app.js:619 | when every amount lies in [lo, hi], the total lies between `n * lo` and `n * hi` |
| Stats.MaxOf | app.js:617 | `Math.max` is one of the amounts and no amount exceeds it |
| Stats.MinOf | app.js:618 | `Math.min` is one of the amounts and no amount is below it |
| Stats.RoundHalfUp | app.js:619 | `Math.round(sum / n)` is the integer r with `r - 1/2 <= sum / n < r + 1/2` |
| Stats.RoundedBetween | app.js:619 | a rounded mean of values in [lo, hi] lies in [lo, hi] |
| Stats.TopCategory | app.js:622-626 | the top category has the maximal record count, and every category first seen before it has a strictly smaller count |
| Stats.QuickStatsOf | app.js:607-626 | nothing exactly for an empty ledger; otherwise max and min are attained amounts bounding every amount, the average is the rounded mean with min <= average <= max, and the top category is as in `TopCategory` |
| Charts.CategoryTotals | app.js:365-371 | one entry per category present, in first-occurrence order, each holding that category's spend, and together adding up to the total spend |
| Charts.MonthlySeries | app.js:386-397 | at most six entries (the number of months with data, capped at six), strictly ascending by (year, month), each holding that month's spend, and no month with data left out is later than a month kept |
| Charts.LatestOfSorted | app.js:396-397 | the last entries of a list sorted by distinct keys are strictly ascending, and every key cut off is below every key kept |
| Charts.Window | app.js:406-411 | seven days, exactly today - 6 through today, each once, in strictly increasing order (oldest first) |
| Charts.Trend | app.js:404-418 | exactly the seven days of the window, in order, each holding the spend of the records dated that day (zero when none), and together the spend of the records inside the window only |
| Lists.Rank | app.js:469-475 | the key each order's comparator subtracts: date or amount, negated for the descending orders, constant for any other selection |
| Lists.Shown | app.js:463-465 | all records for the empty filter, otherwise the records of that category in ledger order |
| Lists.TableRows | app.js:460-476 | the rows are a permutation of the records matching the filter (all records for the empty filter), ordered by the chosen key |
| Lists.TableOrders | app.js:468-476 | each of the four named orders sorts by date or amount, descending or ascending as named |
| Lists.UnsortedKeepsLedgerOrder | app.js:474-475 | under the default order the rows keep the ledger's order |
| Lists.TableRowsStable | app.js:468-476 | rows with equal sort keys keep their ledger order |
| Lists.TopVoted | app.js:547-549 | at most five records (all of them when there are fewer), drawn from the ledger, with non-increasing votes |
| Lists.TopVotedAreTop | app.js:547-549 | every record left out of the top list has no more votes than any record in it |
| Lists.TopVotedTies | app.js:547-549 | for every score, the listed records with that score are the first records of the ledger with that score, in ledger order |
| Lists.NoVotesYet | app.js:551 | the empty-state test: nothing listed, or every listed record has zero votes |
| Lists.NoVotesYetMeans | app.js:551 | the empty state never shows while some record has a positive score, and it always shows when every score is zero |
| Lists.CategoryBreakdown | app.js:571-589 | nothing exactly when the total spend is zero; otherwise one entry per category present, each holding that category's spend, largest first, categories with equal spend in first-occurrence order, adding up to the total |

## Left out

- Rendering is not modelled: the DOM, event wiring, modals, navigation and HTML templating,
  including the recent-records list (`expenses.slice(0, 5)` only feeds HTML) and the vote cards.
- Persistence is not modelled. `localStorage` and JSON are browser I/O; the constructor takes
  the loaded snapshot as an optional value, and saving is not modelled.
- Chart.js is not modelled: the construction and update calls go into a foreign library. The
  model computes the data handed to the charts, not their labels or colours.
- Formatting is not modelled: currency and date formatting, `escapeHtml`, and the breakdown
  percentage with `toFixed`, which depend on the locale, the DOM or floating point.
- The toast timer and the `confirm()` dialogs are not modelled. Delete and clear are modelled
  as already confirmed.
- Time zones are not modelled. The source reads dates in local time but keys the trend window
  with UTC `toISOString`. The model uses day numbers, with "now" and "today" as parameters.
- Input parsing is not modelled: `parseInt` may return `NaN`, and `Date.now()` may produce a
  duplicate id. Amounts are integers, and ids are fresh parameters.
- Dictionary keys: the dictionaries are plain objects keyed by category. `Object.keys` lists
  integer-like keys (a category named `"7"`, say) before the others, and a name inherited from
  `Object.prototype` (such as `"constructor"`) starts out as a function rather than 0, so `+=`
  concatenates strings. The model treats the category as a tag from the selector's fixed set
  of ordinary names, keeps all keys in insertion order and starts every sum at 0.
- Number precision: JavaScript numbers are doubles. The sums are exact only up to 2^53, and
  `Math.round` rounds a floating-point quotient. Here amounts, sums and the average are exact
  integers, which agree with the source only within double precision.
- Ledger.ExpenseLedger.Add: the creation time is an integer here; the source stores an ISO
  string.
