# Finance tracker — Dafny model of its record-list logic

A browser-only personal-finance tracker (Arabic interface) keeps two lists in the browser's
store: **transactions** (income or expense, amount, note, category, date) and **debts** (name,
amount, owed-to-me or owed-by-me, note, date, pending or paid). This project models the
logic that works on those lists and proves properties of it:

- **Reports page** (`reports.js`), module `Reports`:
  - the month key of a date, with the fallback to today's month;
  - the monthly report: month filter, totals, per-day slots and the fixed three-row table;
  - the category report: grouping by category key, display names, and the table of shown
    groups with percentages, sorted by amount;
  - the yearly report: totals, twelve month slots and the fixed three-row table;
  - the dispatch between the three reports.
- **Transactions page** (`transactions.js`), module `Transactions`:
  - the add form's guard and the prepend;
  - the type tabs;
  - the search and month filter;
  - the delete button with its confirmation.
- **Debts page** (`debts.js`), module `Debts`:
  - the add form's guard and the prepend of a pending debt;
  - the search and status filter;
  - the pending ↔ paid toggle;
  - delete;
  - the owed and debt totals.
- **Start-up script** (`app.js`), module `App`:
  - store initialisation;
  - the dashboard figures and the balance colour;
  - the data of the monthly chart.

Shared pieces:
- `Records`: the record types and the category-name table.
- `Totals`: the sums and the chart slots.
- `Text`: the string operations the pages use (`toLowerCase`, `includes`, `indexOf`,
  `replace`, `trim`, `padStart`, number to text).
- `Seqs`: `filter` and `splice(i, 1)`.

How the model represents the page state:
- The pages change their lists in place, so the mutable state is a class per page:
  `Transactions.TransactionPage`, `Debts.DebtPage` and `App.Storage`.
- Each of their methods states the new state in terms of pure functions. The properties the
  pages promise are lemmas about those functions.
- The slot fills and the grouping loop are methods with loops, proved equal to their
  specification functions:
  - `Reports.FillBuckets` fills an array;
  - `Reports.GroupByCategory` groups the records;
  - `App.MonthlyChart` fills the chart's array.

Inputs that come from outside the model:
- Amounts are whole numbers (`int`).
- A stored date is what the browser's date parser reads back from it: `None` for an Invalid
  Date, otherwise year, 0-based month and 1-based day. The add forms store a date as its
  `ar-EG` display text, so the submit operations take the read-back date as a separate input
  rather than assuming it equals the entered date.
- Today's date, the number of days in the selected month, and the answer to a confirmation
  prompt are parameters.

Behaviour modelled as the code has it:
- **Delete and toggle positions.** A delete or toggle button carries the record's position in
  the *filtered* list, and the handler uses that position on the *stored* list.
  - Without a filter the two positions agree (`Transactions.UnfilteredDeleteHitsShown`,
    `Debts.UnfilteredIndexIsStoredIndex`).
  - With a filter a different record can be hit. `Transactions.FilteredDeleteHitsOther` and
    `Debts.FilteredToggleHitsOther` show two-record cases where this happens.
- **Negative amounts.** The add forms refuse only an amount that is zero or not a number, so a
  negative amount is accepted.
- **Search by category.** The transaction search looks in the raw category key (for example
  `food`), not in its display name.
- **Monthly chart.** The chart loop has no range check: a record whose date does not give a
  month throws, and the chart is not drawn. `App.MonthlyChart` returns `None` in that case.

## Model

| member | source | states |
|---|---|---|
| `Records.CategoryName` | reports.js:402-415 | a known key gets its fixed display name; the general label "عام" comes back exactly for keys outside the nine known ones; never empty (transactions.js:151-164 is the same table) |
| `Totals.CategoryKey` | reports.js:175 | a record is grouped under its category, or under "other" when it has none; the key is never empty |
| `Totals.Sum` | reports.js:95-97 | the `reduce` total of a measure over the records; `SumAppend`, `SumPrepend`, `SumRemoveAt` and `KindsPartition` state how it behaves |
| `Totals.DebtSum` | debts.js:142-148 | the `reduce` total of the amounts of the debts of one type; `DebtSumPrepend`, `DebtSumRemoveAt` and `ToggleKeepsSum` state how it behaves |
| `Totals.Buckets` | reports.js:107-122 | the `forEach` fill has one slot per position; `BucketsStartEmpty`, `BucketsAdd`, `BucketsSkip` and `BucketsCountInRangeOnce` state what the slots hold |
| `Totals.KindsPartition` | reports.js:95-97 | when every record is income or expense, the income and expense totals add up to the total of all amounts |
| `Totals.BucketsAdd` | reports.js:113-122 | a record whose slot is in range adds its amount to that one slot, income side for income and expense side otherwise; every other slot stays as it was |
| `Totals.BucketsSkip` | reports.js:115 | a record whose slot is out of range, or whose date does not parse, changes no slot |
| `Totals.BucketsStartEmpty` | reports.js:107-111 | every slot starts at zero income and zero expense |
| `Totals.BucketsCountInRangeOnce` | reports.js:113-122 | across all slots, each record with an in-range slot is counted exactly once and no other record is counted |
| `Totals.BucketsCountAll` | reports.js:250-259 | when every record's slot is in range, the slots together hold every amount |
| `Totals.SumPrepend` | transactions.js:47 | putting a record in front adds its share to any total |
| `Totals.SumRemoveAt` | transactions.js:130 | removing the record at a position takes its share out of any total |
| `Totals.DebtSumPrepend` | debts.js:142-148 | a debt put in front adds its amount to the total of its own type only |
| `Totals.DebtSumRemoveAt` | debts.js:142-148 | removing a debt takes its amount out of the total of its own type only |
| `Reports.YearMonth` | reports.js:40-52 | a date that does not parse is filed under today's month key; the key is never empty |
| `Reports.MonthPartDigits` | reports.js:46 | the month part of a key is always the two digits of the 1-based month |
| `Reports.MonthKeyInjective` | reports.js:46 | two month keys are equal exactly when their years and months are equal |
| `Reports.InMonth` | reports.js:83-86 | the month filter keeps exactly the records filed under the selected key, every copy of each |
| `Reports.InMonthExactly` | reports.js:83-86 | the kept records are an order-preserving subsequence, and a record is kept, with all its copies, exactly when its date (today's for an unparsable date) has the selected year and month |
| `Reports.UnreadableDateFiledToday` | reports.js:47-50 | a record added with a date whose stored text does not read back is filed under today's month |
| `Reports.NoMonthSelectedKeepsNothing` | reports.js:425-429 | with no month selected the monthly filter keeps nothing, so the monthly report shows nothing |
| `Reports.ArabicMonthName` | reports.js:55-61 | months 0 .. 11 get their names; "غير معروف" comes back exactly for every other index |
| `Reports.Summarize` | reports.js:95-97 | income and expense are the totals of the income and the expense records, and balance is their difference |
| `Reports.FillBuckets` | reports.js:107-122 | the slot loop over an array leaves exactly the slot totals of the specification |
| `Reports.RenderMonthly` | reports.js:83-138 | no report exactly when no record is in the month; otherwise (`MonthlyHolds`) the totals of the kept records, `daysInMonth` day labels 1 .. n, the day slots, and the fixed income, expense and balance rows at 100 percent |
| `Reports.FindGroup` | reports.js:176 | finds a group with the key, or reports that no group has it |
| `Reports.Grouped` | reports.js:172-189 | the `categories` object as a list in first-seen order; its keys, names and totals are stated by `GroupedKeys`, `GroupedSums` and `GroupedPartition` |
| `Reports.GroupByCategory` | reports.js:172-189 | the grouping loop builds exactly the groups of the specification |
| `Reports.GroupedKeys` | reports.js:174-182 | group keys are distinct, and there is a group for exactly the keys that occur |
| `Reports.GroupedSumsStep` | reports.js:174-188 | one pass of the grouping loop keeps each group's name and both totals equal to those of exactly the records with its key |
| `Reports.GroupedSums` | reports.js:174-189 | each group carries its key's name and holds the income, and the other amounts, of exactly the records with its key |
| `Reports.GroupedFaithful` | reports.js:172-189 | distinct keys, one group per occurring key, and correct name and totals for each group |
| `Reports.GroupedPartition` | reports.js:172-189 | together, the groups hold every amount of the selected records exactly once |
| `Reports.GroupsTotalUpdate` | reports.js:184-188 | crediting one group changes the grand total by that group's change |
| `Reports.Percentage` | reports.js:211 | a percentage exists exactly when the total is non-zero, and then percentage × total = amount × 100 |
| `Reports.TableRows` | reports.js:206-212 | the `filter` and `map` over the groups give at most one row per group; which rows they give is stated by `TableRowsPerGroup` and `TableRowsMembers` |
| `Reports.RowsOf` | reports.js:207-211 | the `map` gives one row per group, row i being group i's name, amount and percentage |
| `Reports.TableRowsPerGroup` | reports.js:206-212 | the table rows are the `map` of the `filter` of the groups with some income or expense: row i is the row of the i-th such group, so exactly one row per such group, in group order, even when two groups' rows coincide |
| `Reports.TableRowsMembers` | reports.js:206-212 | the table has a row for every group with some income or expense, and no other row |
| `Reports.Insert` | reports.js:213 | insertion adds exactly one row and keeps every other row |
| `Reports.InsertDescending` | reports.js:213 | inserting into rows sorted by descending amount keeps them sorted |
| `Reports.SortByAmount` | reports.js:213 | the sorted table is a permutation of its rows, in non-increasing order of amount |
| `Reports.CategoryTable` | reports.js:206-213 | the table is sorted by descending amount and is a permutation of the shown groups' rows |
| `Reports.CategoryTableMembers` | reports.js:206-212 | a row is in the table exactly when it is the row of a shown group |
| `Reports.PercentSumSort` | reports.js:213 | sorting does not change the sum of the percentages |
| `Reports.PercentSumRows` | reports.js:207-211 | the percentages of the shown groups add up to their share of the total |
| `Reports.GroupsNonNegative` | reports.js:184-188 | with no negative amounts, no group total is negative |
| `Reports.PercentagesAddUpTo100` | reports.js:164-213 | with non-negative income and expense records and a positive total, the table's percentages add up to exactly 100 |
| `Reports.CategorySelection` | reports.js:152-154 | the selected month's records, or all records when no month is selected; the month filter's properties are stated by `InMonth` |
| `Reports.BuildCategoryReport` | reports.js:164-213 | the totals, the grouping loop and the sorted table together give the report `CategoryHolds` describes |
| `Reports.RenderCategory` | reports.js:153-216 | no report exactly when the selection is empty; otherwise (`CategoryHolds`) the totals, the groups and the sorted table of the selected records (all records when no month is selected) |
| `Reports.RenderYearly` | reports.js:230-277 | no report exactly without transactions; otherwise (`YearlyHolds`) the totals, twelve month slots with records outside months 0 .. 11 dropped, and the fixed yearly income, yearly expense and balance rows at 100 percent |
| `Reports.KindOf` | reports.js:427-439 | "category" and "yearly" pick their reports; every other selection falls back to the monthly report |
| `Reports.RenderReport` | reports.js:418-440 | nothing without transactions; otherwise the report the selection picks, empty exactly when that report's selection is empty, and with the contents `MonthlyHolds`, `CategoryHolds` or `YearlyHolds` gives it |
| `Transactions.Acceptable` | transactions.js:42 | the submit guard: a type, a non-zero number, a category and a date; properties of the forms it admits are stated by `Entered` and `TransactionPage.Submit` |
| `Transactions.Entered` | transactions.js:47-53 | the added record holds the entered type, non-zero amount, note and non-empty category, and the date as read back from its stored text |
| `Transactions.MonthNumberText` | transactions.js:89-90 | an unparsable date gives the text "NaN" and no other date does |
| `Transactions.Matches` | transactions.js:68-96 | the type tab, the lower-cased search over note, amount digits and category key, and the month number, joined by AND; properties in `MonthFilterExact`, `SearchIgnoresCase` and `NoFilterShowsAll` |
| `Transactions.View` | transactions.js:68-96 | a record is shown exactly when it is stored and passes the type tab, the search and the month filter together, and then with every stored copy |
| `Transactions.ViewIsSubsequence` | transactions.js:68-96 | the shown list is an order-preserving subsequence of the stored list |
| `Transactions.NoFilterShowsAll` | transactions.js:68-96 | with the "all" tab, no search term and no month, the whole list is shown in order |
| `Transactions.MonthFilterExact` | transactions.js:87-93 | with month number m selected, a dated record passes exactly when its 1-based month is m; an undated one never passes |
| `Transactions.SearchIgnoresCase` | transactions.js:77 | the search term is compared in lower case, so the typed term's case does not matter |
| `Transactions.UnfilteredDeleteHitsShown` | transactions.js:104-130 | without a filter, the delete button at a position removes exactly the record shown there |
| `Transactions.FilteredDeleteHitsOther` | transactions.js:104-130 | with a type tab active, a button's position can remove a different stored record than the one shown |
| `Transactions.TransactionPage.constructor` | transactions.js:3-4 | the page starts with the stored list and the "all" tab |
| `Transactions.TransactionPage.SelectTab` | transactions.js:22 | the tab id without its "-tab" suffix becomes the filter; the list is untouched |
| `Transactions.TransactionPage.Submit` | transactions.js:42-53 | an acceptable form puts its record, with the read-back date, in front of the unchanged old list; any other form changes nothing |
| `Transactions.TransactionPage.Delete` | transactions.js:128-133 | a confirmed delete applies `splice(index, 1)` to the stored list; a declined one changes nothing |
| `Debts.Acceptable` | debts.js:29 | the submit guard: a name that is not all white space, a non-zero number, a type and a date; `BlankNameRefused` and `Entered` state what it admits |
| `Debts.Entered` | debts.js:34-41 | the added debt holds the trimmed, non-blank name, the entered amount, type and note, the date as read back from its stored text, and status pending |
| `Debts.BlankNameRefused` | debts.js:23-32 | a name made only of white space is refused |
| `Debts.Matches` | debts.js:60-80 | the lower-cased search over name, amount digits and note, and the status filter, joined by AND; `NoFilterShowsAll` states the unfiltered case |
| `Debts.View` | debts.js:60-80 | a debt is shown exactly when it is stored and passes both the search and the status filter, and then with every stored copy |
| `Debts.ViewIsSubsequence` | debts.js:60-80 | the shown list is an order-preserving subsequence of the stored list |
| `Debts.NoFilterShowsAll` | debts.js:60-80 | with no search term and no status, the whole list is shown in order |
| `Debts.UnfilteredIndexIsStoredIndex` | debts.js:91-132 | without a filter, a button's position is the debt's position in the stored list |
| `Debts.FilteredToggleHitsOther` | debts.js:107-122 | with a status selected, a toggle button's position can flip a different stored debt than the one shown |
| `Debts.Flip` | debts.js:122 | paid becomes pending, and every other status becomes paid |
| `Debts.FlipTwice` | debts.js:122 | flipping twice restores a status exactly when it was pending or paid |
| `Debts.Toggled` | debts.js:122 | the list after the toggle assignment; its effect is stated by `ToggleChangesOnlyStatus`, `ToggleTwice` and `ToggleKeepsTotals` |
| `Debts.ToggleChangesOnlyStatus` | debts.js:122 | the toggle changes only the status of the debt at the position |
| `Debts.ToggleTwice` | debts.js:122 | toggling the same pending or paid debt twice restores the list |
| `Debts.ToggleKeepsSum` | debts.js:142-148 | a toggle leaves the total of every type unchanged |
| `Debts.UpdateTotals` | debts.js:141-149 | the owed and debt totals over the whole stored list; `ToggleKeepsTotals`, `DebtSumPrepend` and `DebtSumRemoveAt` state how they move |
| `Debts.ToggleKeepsTotals` | debts.js:141-148 | a toggle leaves both shown totals unchanged |
| `Debts.DebtPage.constructor` | debts.js:3 | the page starts with the stored list |
| `Debts.DebtPage.Submit` | debts.js:29-41 | an acceptable form puts its pending debt, with the read-back date, in front of the unchanged old list; any other form changes nothing |
| `Debts.DebtPage.ToggleStatus` | debts.js:121-122 | at a stored position the debt's status flips; past the end the assignment throws and nothing changes |
| `Debts.DebtPage.Delete` | debts.js:130-135 | a confirmed delete applies `splice(index, 1)` to the stored list; a declined one changes nothing |
| `App.Initialized` | app.js:3-8 | after start-up both list keys hold a non-empty value; blank ones hold an empty list; filled keys and all other keys are untouched |
| `App.InitializedIdempotent` | app.js:3-8 | starting up twice is the same as starting up once |
| `App.Storage.Initialize` | app.js:3-8 | the two conditional writes leave the store as `Initialized` describes |
| `App.UpdateStats` | app.js:22-35 | income and expense over the transactions, their difference, and the owed total over the debts; `StatsAfterSubmit`, `StatsAfterDelete`, `OwedCountsOnlyOwed` and `BalanceColorMeansCovered` state how they behave |
| `App.StatsAfterSubmit` | app.js:23-34 | a new record moves income or expense by its amount and the balance by its signed share, and leaves the owed total alone |
| `App.StatsAfterDelete` | app.js:23-31 | removing a record takes its signed share back out of the balance |
| `App.OwedCountsOnlyOwed` | app.js:32-34 | a debt that is not owed to the user changes none of the figures |
| `App.BalanceColor` | app.js:45 | the income colour exactly for a balance of zero or more, the expense colour exactly below zero |
| `App.BalanceColorMeansCovered` | app.js:31-45 | the balance shows in the income colour exactly when income is at least expense |
| `App.MonthlyChart` | app.js:57-68 | the chart fails exactly when some record has no month in 0 .. 11; otherwise there are twelve slots holding the records' amounts by month and side |
| `Seqs.Filter` | transactions.js:68 | `filter` keeps exactly the elements that pass, each with as many copies as the input has, and never makes the list longer |
| `Seqs.FilterIsSubsequence` | transactions.js:68 | `filter` keeps the original order |
| `Seqs.RemoveAt` | transactions.js:130 | `splice(start, 1)` removes exactly the element at the clamped position, when there is one, and shifts the rest down |
| `Seqs.RemoveAtIsSubsequence` | debts.js:132 | `splice(start, 1)` keeps the order of the remaining elements |
| `Text.ToLower` | transactions.js:77 | lower-casing keeps the length, maps each character, and leaves no upper-case ASCII letter |
| `Text.ContainsIff` | transactions.js:79-81 | `includes` holds exactly when the term occurs at some position |
| `Text.IndexOf` | transactions.js:22 | the first position where the pattern occurs, or -1 exactly when it does not occur |
| `Text.ReplaceFirst` | transactions.js:22 | `replace` with a string pattern changes only the first occurrence, and changes nothing when there is none |
| `Text.StripTabSuffix` | transactions.js:18-22 | a tab id of the form name + "-tab" gives back the name when the name has no dash |
| `Text.NatToString` | transactions.js:80 | the decimal text has only digits, has one digit exactly below ten, and has no leading zero |
| `Text.IntToString` | debts.js:67 | negative numbers get a minus sign before the digits |
| `Text.DigitsValueOfNatToString` | transactions.js:89-90 | reading the decimal text back gives the number |
| `Text.IntToStringInjective` | transactions.js:89-90 | different numbers have different decimal texts |
| `Text.PadStart2` | reports.js:46 | a text of two or more characters is unchanged; a shorter one is padded on the left with zeros to length two |
| `Text.LeadingSpaces` | debts.js:23 | the white space `trim` drops at the front: every character before the count is white space, and the one at the count is not |
| `Text.Trim` | debts.js:23 | the result is empty exactly when the input is all white space; otherwise it does not start or end with white space; it is the slice of the input after its leading white space, and only white space follows it |

## Left out

- Page rendering: DOM construction, `innerHTML`, event wiring, `alert`, loading indicators and report titles are presentation. The model keeps the data the pages compute.
- Chart drawing: the Chart.js set-up in reports.js:286-367 and app.js:70-111 belongs to a foreign library. The model keeps the slot data given to it.
- Browser store: `localStorage` and JSON encoding are I/O and a foreign serialiser. The store is a map from key to text (`App.Storage`), and each page receives its list as a parameter.
- Each page loads its lists once: `window.updateStats` works on the lists app.js read at load time. This sharing between pages is not modelled. `App.UpdateStats` takes the lists as parameters.
- Dates: `new Date(...)` parsing and `toLocaleDateString('ar-EG')` on submit depend on the browser's date parser and locale. A stored date is the parsed value, and the submit operations take the value read back from the stored text as an input.
- The number of days in the selected month (`new Date(year, monthNum, 0).getDate()`, reports.js:103-105) is calendar arithmetic on the year and month parsed from the month text. Parsing that text with `parseInt` is not modelled, so the number is a parameter of `Reports.RenderMonthly`.
- Numbers: floating point, `parseFloat` on arbitrary text, NaN propagation through sums, and `toFixed` formatting are left out. Amounts are whole numbers, and an amount field that does not parse is `None`.
- Reports.Percentage: an amount-over-zero total gives NaN or Infinity in the page; the model gives `None` instead of those values.
- Text.ToLower: lower-cases ASCII letters only, because full Unicode case mapping is a library table.
- Records.CategoryName: does not model property names inherited by every object (such as `constructor`), for which the page's lookup returns a function rather than the general label.
- Reports.Grouped: does not model categories named after properties every object inherits (`constructor`, `toString`, `__proto__` and the like). For such a key, `categories[categoryKey]` at reports.js:176 finds the inherited value, so the page creates no group and its `+=` writes to that inherited object instead. The record is then missing from `Object.values(categories)`, the chart and the table, while `Reports.Grouped` gives it a group of its own, so `Reports.GroupedPartition` does not describe the page on such input.
- Reports.Grouped: keeps groups in first-seen order. `Object.values` puts integer-like keys first, in ascending order. With such keys the page's chart labels and data (reports.js:192-194, the `groups` of `Reports.RenderCategory`) come in a different order, and so do table rows with equal amounts after the sort.
- The handlers' `async`/`await` and the `window.updateStats` hook have no concurrency and are left out.
- The PDF export button (reports.js:451-455) only shows a message and is left out.
- The report year selector (reports.js:445-448) only rewrites the month field and is left out.
- The default values of the form and report fields (today's date, reports.js:27-37) are left out.
