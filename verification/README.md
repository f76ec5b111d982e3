# Cash-register and settlement back office, modelled in Dafny

This project models the core of a small multi-location point-of-sale and
settlement web application. Cashiers start a business day per location
with an opening cash float and ring up sales on a keypad calculator. They
count the cash drawer by denomination, which moves the day to
PENDING_REPORT, and confirm the daily report, which closes the day with its
expected cash (opening + sales) and cash difference (closing − expected).
The back office edits those reports in an editable table that recomputes
derived cells as figures are typed and can cancel an edit. It settles each
date once, with the letter totals A to K. It checks that each day's
opening cash matches what the previous settlement carried forward, and it
shows calendar statuses per day. Administrators manage locations (the
administrator types the slug; names and slugs must be non-empty and unique,
and a location is not deleted while business days refer to it), roles,
permissions and a key-value settings store. The slug generator
`generate_slug` (app/routes/admin_routes.py:12-19) is a helper no route
calls, and the add and edit routes do not run the location form's
validators: `Admin.GenerateSlug` and its lemmas, and
`Admin.GeneratedSlugPassesForm`, describe that helper and the form
validator on their own. A separate scaffolding
script builds the project's directory tree from an indented outline.

The model keeps the source's own form. The business-day register, the POS
calculator, the report table, the location table, the settings store, the
settlement book and the scaffolding script's path stack are classes whose
methods update fields in place, with loops where the source loops. Period
ranges, settlement totals, status classifiers, validators and the slug
generator are functions, with lemmas relating them. Money is whole NT$
(`int`). Dates are `Calendar.Date` values or day numbers. A location is an
opaque key. The expression evaluator of the keypad, `parseFloat` of the
typed amount and the password hash verifier are parameters.

Files: `cashier.dfy` (the business-day register), `report.dfy` (reporting
and settlement), `report_edits.dfy` (the report editor's save handlers),
`report_table.dfy` and `report_format.dfy` (the editable report table and
its number formats), `pos.dfy` (the POS calculator), `admin.dfy`
(locations), `models.dfy` (records, permissions and settings), `forms.dfy` (form
validators), `project_tree.dfy` (the scaffolding script), and the shared
`text.dfy`, `calendar.dfy` and `wrappers.dfy`.

## Model

| member | source | states |
|---|---|---|
| Cashier.PayloadCheck | app/routes/cashier_routes.py:191-204 | an empty or missing body is "no data"; a falsy location, a non-numeric total or a non-integer item count is "invalid format"; exactly the well-formed payloads pass |
| Cashier.PosCheckoutBodyIsRefused | app/routes/cashier_routes.py:195-204 | a body carrying `location_slug` and a list of line items (what the register page posts) has no `location`, so the route refuses it as malformed |
| Cashier.Breakdown | app/routes/cashier_routes.py:273-277 | the stored breakdown pairs each of the eight denominations, in order, with its entered count (0 when missing) |
| Cashier.BreakdownTotalIsCountedCash | app/routes/cashier_routes.py:272-279 | the stored breakdown adds up to the stored closing cash Σ count × denomination |
| Cashier.EmptyCountIsZero | app/routes/cashier_routes.py:275-276 | with no count entered the counted cash is 0 |
| Cashier.CountedCashNonNegative | app/routes/cashier_routes.py:269-276 | non-negative counts over the positive denominations give a non-negative closing cash |
| Cashier.LogAppend | app/routes/cashier_routes.py:214-220 | logging one transaction raises its own day's transaction count by 1, sales by its amount and items by its item count, and no other day's totals |
| Cashier.LogWithoutDay | app/routes/cashier_routes.py:139-145 | a day no transaction refers to (a freshly started one) has zero log totals |
| Cashier.DashboardAction | app/routes/cashier_routes.py:44-72 | no record gives the start-day link, OPEN the register, PENDING_REPORT and CLOSED the report; a NOT_STARTED record matches no branch (each case in both directions) |
| Cashier.Register.Dashboard | app/routes/cashier_routes.py:35-72 | the dashboard has exactly one entry per listed location, each the link its business day today calls for, and never "no link" |
| Cashier.DashboardAlwaysLinks | app/routes/cashier_routes.py:39-72 | in a consistent register no stored day is NOT_STARTED, so every location gets a link |
| Cashier.ReplaceDayKeepsConsistent | app/routes/cashier_routes.py:218-220 | replacing one day by a valid record whose status only moves forward and whose counters match the log keeps the register consistent |
| Cashier.AppendCountersOther | app/routes/cashier_routes.py:214-220 | logging a transaction leaves every other day's counters equal to its log totals |
| Cashier.AppendCountersOwn | app/routes/cashier_routes.py:214-220 | the incremented counters of the transaction's own day equal its log totals afterwards |
| Cashier.RecordKeepsConsistent | app/routes/cashier_routes.py:213-220 | logging a transaction against an OPEN day and adding its figures to that day's counters keeps the register consistent and moves no status backward |
| Cashier.CountKeepsConsistent | app/routes/cashier_routes.py:272-279 | storing the counted cash and breakdown of an OPEN day and moving it to PENDING_REPORT keeps the register consistent and moves no status backward |
| Cashier.Register.constructor | app/models.py:78-99 | an empty register (no business days, empty transaction log) is consistent |
| Cashier.Register.StartDay | app/routes/cashier_routes.py:125-149 | an existing record for the date and location refuses and changes nothing; a missing or negative opening cash is rejected and changes nothing; otherwise exactly one new OPEN day with that opening cash and zero counters is added; consistency kept, statuses only move forward |
| Cashier.Register.PosTotals | app/routes/cashier_routes.py:166-181 | the register page opens only for an OPEN day and shows that day's sales, item and transaction counters |
| Cashier.Register.RecordTransaction | app/routes/cashier_routes.py:189-221 | a malformed payload is refused before any change, with the first failing check's answer; a well-formed payload without an OPEN day, or with a non-string location, is answered "not found" and nothing changes; otherwise sales grow by the total, items by the item count, the transaction count by exactly 1, and the transaction is logged; consistency kept |
| Cashier.Register.CloseDay | app/routes/cashier_routes.py:261-281 | only an OPEN day is closed: closing cash becomes Σ count × denomination over 1000…1 (a missing count is 0), the breakdown is stored and the status becomes PENDING_REPORT; otherwise nothing changes |
| Cashier.Register.CountCash | app/routes/cashier_routes.py:272-276 | the loop over the eight denominations computes exactly Σ count × denomination and the ordered breakdown, and the breakdown adds up to the total |
| Cashier.Register.DailyReport | app/routes/cashier_routes.py:301-321 | the report exists iff the day is PENDING_REPORT or CLOSED; expected = opening + sales and difference = counted (0 if missing) − expected |
| Cashier.Register.ConfirmReport | app/routes/cashier_routes.py:329-349 | only a PENDING_REPORT day is confirmed: status CLOSED, expected cash = opening + sales, cash difference = counted − expected; otherwise nothing changes; statuses only move forward |
| ReportEdits.Recompute | app/routes/report_routes.py:275-276 | the day comes out reconciled (expected = opening + sales, difference = closing − expected) with every other field as it was |
| ReportEdits.ReconciledEditKeepsConsistent | app/routes/report_routes.py:274-276 | replacing one day by a reconciled edit that keeps its status, counters and breakdown keeps the register consistent and moves no status |
| ReportEdits.ApplySummaryEdit | app/routes/report_routes.py:270-276 | an unknown id is skipped; an opening cash that `float()` rejects aborts the request, and nothing else does; otherwise only that day changes: the opening cash sent (or kept when absent) and the day reconciled |
| ReportEdits.SummaryEditsKeepConsistent | app/routes/report_routes.py:267-278 | a committed daily-summary save keeps the register consistent and moves no status |
| ReportEdits.SummaryEditsKeepUnsent | app/routes/report_routes.py:270-273 | a committed save leaves every day it was not sent as it was |
| ReportEdits.SummaryEditsReconcile | app/routes/report_routes.py:275-276 | a committed save leaves every day it was sent reconciled |
| ReportEdits.SaveDailySummaryData | app/routes/report_routes.py:265-281 | all rows or none: it commits iff no row aborts, and then the days are the result of applying the rows in order; a failure rolls back; the log is untouched and consistency is kept |
| ReportEdits.ParseBreakdown | app/routes/report_routes.py:296-298 | the breakdown converts iff every denomination and count is a number, and then pair by pair |
| ReportEdits.ApplyCashCheckEdit | app/routes/report_routes.py:290-301 | an unknown id is skipped; a breakdown with a value `int()` rejects aborts, and nothing else does; a sent breakdown is stored and its Σ denomination × count becomes the closing cash; the day is reconciled; no other day changes |
| ReportEdits.CashCheckEditsKeepConsistent | app/routes/report_routes.py:285-303 | a committed cash-check save keeps the register consistent and moves no status |
| ReportEdits.CashCheckEditsKeepUnsent | app/routes/report_routes.py:289-293 | a committed save leaves every day it was not sent as it was |
| ReportEdits.CashCheckEditsReconcile | app/routes/report_routes.py:300-301 | a committed save leaves every day it was sent reconciled |
| ReportEdits.AsSubmitted | app/static/js/report_scripts.js:226-228 | the editor sends a stored breakdown back pair by pair as numbers |
| ReportEdits.ResubmittedBreakdownKeepsClosing | app/routes/report_routes.py:294-301 | sending a day's stored breakdown back unchanged leaves its closing cash as it was |
| ReportEdits.SaveCashCheckData | app/routes/report_routes.py:283-306 | all rows or none: it commits iff no row aborts, and then the days are the result of applying the rows in order; the log is untouched and consistency is kept |
| ReportEdits.EditItems | app/routes/report_routes.py:318-322 | the log keeps its length, and every transaction keeps everything but its items; an item with the edited id takes the price and category sent |
| ReportEdits.ApplyItemEdit | app/routes/report_routes.py:319-322 | an unknown item id is skipped, leaving the log as it was; a price that `float()` rejects aborts, and nothing else does; otherwise the log is the one with that item's price and category replaced |
| ReportEdits.EditItemsKeepIds | app/routes/report_routes.py:318-322 | an item edit neither adds nor removes item ids |
| ReportEdits.ApplyItemEdits | app/routes/report_routes.py:318-322 | a row's item edits abort iff one of them names an existing item with a price `float()` rejects; otherwise the log keeps its length |
| ReportEdits.EditItemsInTurn | app/routes/report_routes.py:318-322 | the loop over the item edits succeeds iff the edits apply, and then leaves exactly their result |
| ReportEdits.ItemEditsTouchOnlyItems | app/routes/report_routes.py:318-322 | item edits change nothing in the log but line items |
| ReportEdits.ApplyTxEdit | app/routes/report_routes.py:313-331 | an unknown transaction is skipped, changing nothing; otherwise it aborts iff the cash or an item price is not a number, and then the log is the edited log and every other day is as it was; the amount is the sum of the item prices, the cash received the value sent (or kept), the change cash − amount, and the day's sales the sum of its transactions' amounts, with the day reconciled |
| ReportEdits.LogCountsAgree | app/routes/report_routes.py:323-329 | logs that agree on every transaction's day and item count give each day the same transaction and item counts |
| ReportEdits.LogSalesAgree | app/routes/report_routes.py:323-329 | logs that agree on days, and on the amounts of one day's transactions, give that day the same sales |
| ReportEdits.RecountKeepsConsistent | app/routes/report_routes.py:326-331 | recounting one day's sales from the edited log keeps the register consistent and every day is either unchanged or reconciled |
| ReportEdits.RecountedCounters | app/routes/report_routes.py:328-329 | after the recount each day's counters are still its log totals |
| ReportEdits.TxEditKeepsConsistent | app/routes/report_routes.py:313-331 | one committed transaction-log row keeps the register consistent |
| ReportEdits.TxEditLog | app/routes/report_routes.py:317-325 | the edited log keeps every transaction's day and item count and every other day's amounts; the edited transaction has the edited items, its amount is the sum of their prices and its change is cash − amount; every other transaction is as the item edits left it |
| ReportEdits.ForwardOnlyTransitive | app/models.py:84 | statuses that move only forward in two steps move only forward overall |
| ReportEdits.TxEditsKeepConsistent | app/routes/report_routes.py:310-333 | a committed transaction-log save keeps the register consistent, moves no status, and leaves each day unchanged or reconciled |
| ReportEdits.CommitTxEdit | app/routes/report_routes.py:314-331 | the loop over one row's item edits commits iff the row applies, with exactly the row's result |
| ReportEdits.SaveTransactionLogData | app/routes/report_routes.py:308-336 | all rows or none: it commits iff no row aborts, and then the days and log are the result of applying the rows in order; consistency is kept and no status moves |
| ReportEdits.SaveDailyCashSummaryData | app/routes/report_routes.py:338-342 | the editor always refuses (donations and other income are totals of the log) and changes nothing |
| Calendar.DaysInMonth | app/routes/report_routes.py:35 | `monthrange(y, m)[1]`: between 28 and 31, and February has 29 days exactly in a leap year |
| Report.MonthRangeOf | app/routes/report_routes.py:34-35 | never raises; a range it gives is two real dates in order |
| Report.QuarterRangeOf | app/routes/report_routes.py:38-41 | never raises; a range it gives is two real dates in order |
| Report.YearRangeOf | app/routes/report_routes.py:44-45 | never raises; a range it gives is two real dates in order |
| Report.MonthPeriod | app/routes/report_routes.py:33-35 | a period string that does not split into two integers gives `(None, None)` rather than an error |
| Report.QuarterPeriod | app/routes/report_routes.py:37-41 | a year or quarter that is missing or not an integer gives `(None, None)` rather than an error |
| Report.YearPeriod | app/routes/report_routes.py:43-45 | a missing or non-integer year gives `(None, None)` rather than an error |
| Report.GetDateRangeFromPeriod | app/routes/report_routes.py:29-48 | the call raises exactly for an unknown time unit or a month without a period string; every range it returns is two real dates in order |
| Report.MonthPeriodRange | app/routes/report_routes.py:32-35 | "Y-M" for a valid month covers day 1 to the month's last day; an impossible year or month gives `(None, None)` |
| Report.QuarterPeriodRange | app/routes/report_routes.py:36-41 | quarter q in 1..4 runs from day 1 of month 3(q−1)+1 to the last day of month 3q; any other quarter or year gives `(None, None)` |
| Report.YearPeriodRange | app/routes/report_routes.py:42-45 | a year in 1..9999 runs from 1 January to 31 December; any other year gives `(None, None)` |
| Report.MalformedPeriodGivesNoRange | app/routes/report_routes.py:36-48 | a quarter or year period whose year is missing or not a number gives `(None, None)` |
| Report.CarryForwardRows | app/routes/report_routes.py:161-182 | an empty range has no lines and a range of n days at most n lines |
| Report.CarryForwardRowsOrdered | app/routes/report_routes.py:168-181 | the carry-forward lines lie within the requested range in strictly ascending date order |
| Report.CarryForwardRowsDiff | app/routes/report_routes.py:170-175 | each line's yesterday total is what the previous day's settlement handed over (0 if none), its today total the day's opening cash, and its difference today − yesterday |
| Report.HasLineConcat | app/routes/report_routes.py:176-180 | the days with a line in two joined runs are those of either run |
| Report.CarryForwardRowsComplete | app/routes/report_routes.py:176 | a day in the range has a line exactly when it has reports or the day before it was settled |
| Report.CarryForwardCheck | app/routes/report_routes.py:161-182 | the loop emits exactly the carry-forward lines of the range |
| Report.SettlementTotals | app/routes/report_routes.py:508-521 | A, B, C, D, F, J and K are the column sums over the closed reports; E = D − A and G = D + F; unsettled: I = 0 and H = G; settled: H and I are the stored figures |
| Report.ReconciledSheet | app/routes/report_routes.py:508-514 | when every closed report is reconciled, A = C + B and E is the sum of the locations' own cash differences |
| Report.ReconciledColumns | app/routes/report_routes.py:509-512 | over reconciled reports the expected column is opening + sales and the difference column is closing − expected |
| Report.UnclosedLocations | app/routes/report_routes.py:473-484 | a location is unclosed iff it opened on the date and has no CLOSED report there |
| Report.AllClosed | app/routes/report_routes.py:485 | true iff every location that opened on the date has a CLOSED report |
| Report.SettlementBook.constructor | app/routes/report_routes.py:481-482 | a fresh book has no date settled |
| Report.SettlementBook.SaveSettlement | app/routes/report_routes.py:554-577 | an invalid form is refused, an unparsable date raises, an already settled date is refused, each changing nothing; otherwise the date gets the submitted deposit (blank as NULL), next-day cash and filled-in remarks; no stored settlement ever changes |
| Report.OpenedNonEmpty | app/routes/report_routes.py:645 | the set of opened locations is non-empty exactly when some record falls on the day |
| Report.AllClosedMeansEqual | app/routes/report_routes.py:633-646 | when every opened location closed, the opened and closed sets are equal |
| Report.EqualMeansAllClosed | app/routes/report_routes.py:633-646 | equal opened and closed sets mean every opened location closed |
| Report.OpenedEqualsClosed | app/routes/report_routes.py:645 | the route's set comparison holds exactly when every opened location closed |
| Report.SettlementStatusOf | app/routes/report_routes.py:641-650 | settled iff the date is settled; pending iff unsettled with records all closed; in progress iff unsettled with some record not closed; no data iff unsettled without records |
| Report.DatesOf | app/routes/report_routes.py:633-636 | a date is listed iff some business day falls on it |
| Report.QueryStatusOf | app/routes/report_routes.py:669-676 | no data iff no record falls on the day; in progress iff some record of the day is OPEN or PENDING_REPORT; ready otherwise |
| Report.SettlementStatusApi | app/routes/report_routes.py:621-652 | missing, unparsable or zero year or month gives 400; a month whose bounds cannot be built raises; otherwise exactly the days of the month, each with its settlement status |
| Report.QueryStatusApi | app/routes/report_routes.py:654-678 | missing, unparsable or zero year or month gives 400; a month whose bounds cannot be built raises; otherwise exactly the days of the month, each with its query status |
| ReportPeriods.GroupDict | app/routes/report_routes.py:233-234 | every row's group key is in the dictionary and every key comes from some row |
| ReportPeriods.GroupDictLastWins | app/routes/report_routes.py:233-234 | a key maps to the figures of the last row with that key |
| ReportPeriods.KeyLessIrreflexive | app/routes/report_routes.py:235 | no group key sorts before itself under Python's tuple order |
| ReportPeriods.KeyLessTransitive | app/routes/report_routes.py:235 | the tuple order is transitive |
| ReportPeriods.KeyLessTotal | app/routes/report_routes.py:235 | any two different keys are ordered one way or the other |
| ReportPeriods.InsertKey | app/routes/report_routes.py:235 | inserting a key into an ascending key list keeps it ascending and adds exactly that key |
| ReportPeriods.SortedDistinct | app/routes/report_routes.py:235 | `sorted(list(set(...)))`: strictly ascending, with exactly the keys given |
| ReportPeriods.AscendingUnique | app/routes/report_routes.py:235 | two strictly ascending lists with the same keys are equal, so the sorted key list is unique |
| ReportPeriods.AllKeys | app/routes/report_routes.py:235 | the keys of either period's dictionary, each once, in ascending order |
| ReportPeriods.Pad2 | app/routes/report_routes.py:245 | `{:02d}` text of a whole number reads back as that number |
| ReportPeriods.PeriodLabel | app/routes/report_routes.py:242-245 | a year label reads back as the year; a month label (month below 100) ends in the two-digit month |
| ReportPeriods.QuarterLabelReadsBack | app/routes/report_routes.py:244 | a quarter label (one-digit quarter) is the year's text, "-Q" and the quarter's digit, and both parts read back as the key |
| ReportPeriods.MonthLabelReadsBack | app/routes/report_routes.py:245 | a month label (month below 100) is the year's text, '-' and two digits, and both parts read back as the key |
| ReportPeriods.QuarterLabelInjective | app/routes/report_routes.py:244 | two quarter labels (one-digit quarters) are equal only for the same year and quarter |
| ReportPeriods.MonthLabelInjective | app/routes/report_routes.py:245 | two month labels (months below 100) are equal only for the same year and month |
| ReportPeriods.PeriodLabelInjective | app/routes/report_routes.py:242-245 | for every unit, different keys (quarters of one digit, months below 100) get different labels, so the distinct keys of a comparison give distinct row labels |
| ReportPeriods.Pad2Length | app/routes/report_routes.py:245 | `{:02d}` of a number below 100 is exactly two characters |
| ReportPeriods.CompareGroup | app/routes/report_routes.py:237-247 | one line: the label of the key, each side's sales and transactions (0 when the group is missing or NULL there), and B's sales − A's |
| ReportPeriods.CompareAll | app/routes/report_routes.py:236-249 | the line of each key, in the keys' order |
| ReportPeriods.MergePeriods | app/routes/report_routes.py:233-249 | one line per group key found in either period, in ascending key order; each line's label and figures are those of its key's last row on each side (0 when missing or NULL), with difference B − A |
| ReportPeriods.MergeSwapped | app/routes/report_routes.py:233-249 | swapping the two periods keeps the lines, their order and their labels, swaps the columns and negates every difference |
| Pos.CategoryItem | app/static/js/pos_scripts.js:201-245 | a line added to the receipt has quantity ≥ 1 and price = quantity × unit price, with the button's category; a discount line is worth ≤ 0 and any other line is worth ≠ 0; without `*` the line is one unit of the value the whole expression evaluates to (negated for a discount), and nothing is added when it does not evaluate or is a zero non-discount |
| Pos.PricedItem | app/static/js/pos_scripts.js:227-232 | `q` units at price `p` make a line iff the category is a discount or `p` ≠ 0; its unit price is `p` (minus the magnitude of `p` for a discount), its price is `q` × unit price, ≤ 0 for a discount and ≠ 0 otherwise |
| Pos.ProductEntry | app/static/js/pos_scripts.js:208-219 | an expression `a * b` with a positive quantity `a` and no other operator sells `a` units at the price `b` evaluates to (negated for a discount), and is dropped only when it is a zero non-discount |
| Pos.Repeat | app/static/js/pos_scripts.js:413-418 | the loop sends `quantity` copies of the unit, none for a quantity below 1 |
| Pos.SentTotalAppend | app/static/js/pos_scripts.js:411-419 | the worth of a sent list is additive over concatenation |
| Pos.RepeatTotal | app/static/js/pos_scripts.js:413-418 | n copies of a unit are worth n × its price |
| Pos.ExpandedLength | app/static/js/pos_scripts.js:411-419 | the sent list has one entry per unit: its length is the sum of the quantities |
| Pos.ExpandedTotal | app/static/js/pos_scripts.js:411-419 | the sent list is worth exactly what the receipt lines are worth |
| Pos.ExpandItems | app/static/js/pos_scripts.js:411-419 | the nested loops build each receipt line repeated `quantity` times at its unit price, in receipt order |
| Pos.OtherIncomeChange | app/static/js/pos_scripts.js:308-311 | the change is never negative: the amount paid minus the total when it is a number covering the total, and 0 otherwise |
| Pos.Calculator.constructor | app/static/js/pos_scripts.js:143-161 | the register starts empty: no expression, input "0", no items, total 0, not paying |
| Pos.Calculator.Reset | app/static/js/pos_scripts.js:143-161 | the clear button and the timer bring the register back to its empty state |
| Pos.Calculator.InterruptReset | app/static/js/pos_scripts.js:164-171 | a key pressed while the reset timer runs first carries out the reset; otherwise nothing changes |
| Pos.Calculator.HandleNumber | app/static/js/pos_scripts.js:173-187 | after an `=` a digit starts a new input ("." gives "0."); "0" is replaced by a digit; a second ".", "00" after "0" and a 14th character are ignored; anything else is appended |
| Pos.Calculator.HandleOperator | app/static/js/pos_scripts.js:189-199 | ignored while paying; right after an operator it replaces that operator; otherwise the input and the operator are pushed and the input resets to "0" |
| Pos.Calculator.HandleCategory | app/static/js/pos_scripts.js:201-245 | ignored while paying; otherwise the line the expression makes is appended and the expression cleared, or nothing changes when no line is made |
| Pos.Calculator.HandleUndo | app/static/js/pos_scripts.js:266-285 | ignored while paying; a typed entry is cleared first; with none, the last receipt line is removed |
| Pos.Calculator.HandleBackspace | app/static/js/pos_scripts.js:287-291 | removes the last typed character, leaving "0" when one or none is left |
| Pos.Calculator.EnterPaymentMode | app/static/js/pos_scripts.js:114-134 | the total becomes the receipt plus the typed expression (the receipt alone when it does not evaluate) and the input shows it; the register is paying and ready for the amount |
| Pos.Calculator.Checkout | app/static/js/pos_scripts.js:293-298 | sends iff the typed amount is a number covering the total; then the expanded receipt is sent, the change is amount − total ≥ 0 and the reset timer starts; nothing else changes |
| Pos.Calculator.HandleOtherIncome | app/static/js/pos_scripts.js:300-316 | outside payment mode the typed amount is booked iff it is a positive number; in payment mode the whole total is booked, with the change `OtherIncomeChange` gives; the timer starts exactly when something is booked |
| ReportTable.ExpectedWritten | app/static/js/report_scripts.js:39 | writing the expected-cash cell changes no computed cell except the two the daily-summary updater owns, and it leaves the difference cell as it was |
| ReportTable.SummaryWritten | app/static/js/report_scripts.js:31-45 | once the updater has written expected = opening cash input + shown sales, then difference = shown closing cash − expected, the row is current: both cells show those numbers, the difference is red exactly when it is negative, and no other computed cell changes |
| ReportTable.SummaryReadsBack | app/static/js/report_scripts.js:39-40 | the expected-cash and difference cells of a current row read back as the numbers they were formatted from |
| ReportTable.SummaryExpectedOfDay | app/static/js/report_scripts.js:32-36 | a row whose opening input and sales cell show a business day's stored values computes the same expected cash as the server (opening + sales) |
| ReportTable.SummaryRowMatchesServer | app/static/js/report_scripts.js:31-45 | a current daily-summary row that shows a business day's opening cash, sales and closing cash displays the server's expected cash and cash difference, and paints the difference red exactly when the server's difference is negative |
| ReportTable.OtherCashWritten | app/static/js/report_scripts.js:48-55 | writing "NT$ " + (donations + other income) makes an updatable cash-summary row current and changes no other computed cell |
| ReportTable.CashSummaryReadsBack | app/static/js/report_scripts.js:53-54 | the other-cash cell of a current row reads back as donations + other income as typed |
| ReportTable.AmountWritten | app/static/js/report_scripts.js:64-69 | writing the amount cell shows the sum of the item inputs and leaves the change cell as it was |
| ReportTable.LogWritten | app/static/js/report_scripts.js:58-74 | writing the amount and then cash received − amount makes an updatable transaction-log row current and changes no other computed cell |
| ReportTable.NumSumOfPrices | app/static/js/report_scripts.js:64-67 | item inputs holding the item prices as plain numbers add up to the transaction's item total |
| ReportTable.LogRowMatchesServer | app/static/js/report_scripts.js:58-74 | a current transaction-log row whose inputs hold a transaction's item prices and cash received displays the amount and change the server recomputes on save |
| ReportTable.LogReadsBack | app/static/js/report_scripts.js:69-73 | the amount and change cells of a current row read back as the numbers they were formatted from |
| ReportTable.TotalsStep | app/static/js/report_scripts.js:99-109 | recounting one more denomination writes its total into its cell, when the grand row has one, and keeps every other cell |
| ReportTable.ClosingWritten | app/static/js/report_scripts.js:84-87 | writing "NT$ " + Σ denomination × count into a row's closing cell makes it current and changes no other computed cell |
| ReportTable.PairsValueOf | app/static/js/report_scripts.js:78-83 | breakdown inputs holding a stored breakdown as plain numbers are worth the breakdown's Σ denomination × count |
| ReportTable.CashCheckRowMatchesServer | app/static/js/report_scripts.js:77-87 | a current cash-check row showing a stored breakdown displays the closing cash the server recomputes from that breakdown |
| ReportTable.GrandClosingIsSumOfRows | app/static/js/report_scripts.js:90-97 | when every row's closing cell is current, the grand total read back from those cells is the sum of the rows' counted cash |
| ReportTable.PrimeCell | app/static/js/report_scripts.js:147-152 | Edit writes into the input only: the cell's kind and display are unchanged |
| ReportTable.PrimedReadsBack | app/static/js/report_scripts.js:137-152 | the input Edit writes reads back as the number Edit read from the display |
| ReportTable.RestoreCell | app/static/js/report_scripts.js:169-189 | restoring a cell never changes its kind |
| ReportTable.RestoreCellsAt | app/static/js/report_scripts.js:169-190 | restoring a row restores each cell on its own |
| ReportTable.RestoreAllAt | app/static/js/report_scripts.js:166-192 | restoring the table restores each row on its own, from the snapshot under its id |
| ReportTable.PrimeCellsAt | app/static/js/report_scripts.js:133-154 | Edit primes each cell of a row on its own |
| ReportTable.PrimedLayout | app/static/js/report_scripts.js:128-159 | Edit keeps the rows, their ids and the kinds of their cells |
| ReportTable.CaptureCarries | app/static/js/report_scripts.js:139-153 | capturing a cell files its number where Cancel looks it up: under its field, under its denomination in `cash_breakdown`, or under its item id in `items` |
| ReportTable.CaptureKeepsCarry | app/static/js/report_scripts.js:139-153 | capturing a cell under a different key keeps what the snapshot holds for an earlier cell |
| ReportTable.RowSnapShape | app/static/js/report_scripts.js:132-154 | a row's snapshot holds numbers under field names and objects under `cash_breakdown` and `items` only |
| ReportTable.RowSnapCarries | app/static/js/report_scripts.js:132-154 | the snapshot of a well-formed row holds every captured cell's number |
| ReportTable.SnapshotOfRow | app/static/js/report_scripts.js:129-156 | with distinct row ids, the snapshot under a row's id is that row's own snapshot |
| ReportTable.RestoreReadsBack | app/static/js/report_scripts.js:174-189 | a cell restored from a snapshot that holds a number gets that number in its input and shows it again |
| ReportTable.CancelRestoresEdit | app/static/js/report_scripts.js:128-192 | Edit then Cancel round trip: after any typing that keeps the layout, every captured cell gets back the number it showed when Edit was pressed |
| ReportTable.RowClosing | app/static/js/report_scripts.js:78-83 | the loop returns the row's Σ denomination × count over its breakdown inputs |
| ReportTable.ItemsAmount | app/static/js/report_scripts.js:64-67 | the loop returns the sum of the row's item inputs |
| ReportTable.CountDenom | app/static/js/report_scripts.js:102-104 | the loop returns the counts the row's inputs hold for one denomination |
| ReportTable.SnapshotRows | app/static/js/report_scripts.js:129-155 | Edit's nested loops build exactly the snapshot of the rows and prime every row |
| ReportTable.SnapshotCells | app/static/js/report_scripts.js:132-152 | Edit's loop over one row's editable cells builds exactly that row's snapshot and writes each cell's number into its input |
| ReportTable.RestoreRows | app/static/js/report_scripts.js:166-192 | Cancel's first pass writes back exactly the restored rows |
| ReportTable.Table.constructor | app/static/js/report_scripts.js:1-8 | a table starts out of edit mode, with no snapshot and an untouched grand row |
| ReportTable.Table.VisibleButtons | app/static/js/report_scripts.js:113-124 | Save and Cancel are on show exactly in edit mode, Edit exactly outside it |
| ReportTable.Table.ToggleEditMode | app/static/js/report_scripts.js:113-124 | the table enters or leaves edit mode as asked and changes nothing else |
| ReportTable.Table.UpdateDailySummaryRow | app/static/js/report_scripts.js:31-45 | runs to the end iff the row has its cells; then the row is current; other rows, the row's cells and its other computed cells stay as they were |
| ReportTable.Table.UpdateDailyCashSummaryRow | app/static/js/report_scripts.js:48-55 | runs to the end iff the row has its cells, then the other-cash cell is current; a missing cell stops it before any change |
| ReportTable.Table.UpdateTransactionLogRow | app/static/js/report_scripts.js:58-74 | the amount is written first and always shows the item sum; a missing cash-received input or change cell stops it after that write; when it runs to the end the row is current |
| ReportTable.Table.SumDenom | app/static/js/report_scripts.js:101-104 | the loop returns one denomination's count over all rows |
| ReportTable.Table.UpdateDailyCashCheckRow | app/static/js/report_scripts.js:77-111 | the row's closing cell is current; with a grand row and every row's closing cell present, the grand closing shows their sum and each denomination total cell its total count; a row without a closing cell stops the grand-row update |
| ReportTable.Table.SumDisplayed | app/static/js/report_scripts.js:92-96 | reading the grand total succeeds iff every row has a closing cell, and then it is their sum |
| ReportTable.Table.DenominationTotals | app/static/js/report_scripts.js:99-109 | each denomination in the table that has a total cell shows its count over all rows; every other cell keeps its text |
| ReportTable.Table.UpdateRow | app/static/js/report_scripts.js:196-199 | the updater of the table's report type makes the row current iff it can run, changing only that row's computed texts |
| ReportTable.Table.InputChanged | app/static/js/report_scripts.js:283-292 | typing into an input changes that input, recomputes that row, and leaves every other row as it was |
| ReportTable.Table.Edit | app/static/js/report_scripts.js:128-159 | the stored snapshot is the snapshot of the rows as they were, every row is primed, the layout is kept, and the table is in edit mode |
| ReportTable.Table.Cancel | app/static/js/report_scripts.js:163-204 | without a snapshot nothing changes; otherwise the rows are the restored rows with recomputed cells, and it finishes out of edit mode with every row current iff every row's updater can run |
| ReportTable.Table.SameShapeUpdatable | app/static/js/report_scripts.js:31-111 | whether an updater can run depends on the cells and on which computed cells exist, not on the texts they show |
| ReportFormat.Clean | app/static/js/report_scripts.js:13 | the replacement keeps only digits, '.' and '-', and never lengthens the text |
| ReportFormat.CleanAppend | app/static/js/report_scripts.js:13 | the replacement works character by character: cleaning a concatenation cleans each part |
| ReportFormat.DigitRun | app/static/js/report_scripts.js:13 | the leading run of digits `parseFloat` reads: a prefix of digits followed by a non-digit or the end |
| ReportFormat.LeadingInt | app/static/js/report_scripts.js:13 | `parseFloat` gives NaN exactly when no digit follows the optional '-' |
| ReportFormat.GetCleanNumber | app/static/js/report_scripts.js:11-14 | a number is returned as it is and a missing (falsy) value as 0; text is cleaned and parsed, 0 when parsing fails |
| ReportFormat.NoDigitsReadsZero | app/static/js/report_scripts.js:13 | text without a digit reads as 0 |
| ReportFormat.Grouped | app/static/js/report_scripts.js:20-22 | en-US grouping starts with a digit and holds only digits and ',' |
| ReportFormat.FormatNumber | app/static/js/report_scripts.js:20-22 | `formatAsNumber` puts '-' first exactly for negative numbers, then only digits and ',' |
| ReportFormat.FormatCurrency | app/static/js/report_scripts.js:16-18 | `formatAsCurrency` writes '$', then '-' exactly for negative numbers, then only digits and ',' |
| ReportFormat.GroupedDigits | app/static/js/report_scripts.js:16-22 | once the ',' separators are removed, the en-US grouped number spells the number |
| ReportFormat.FormattedReadsBack | app/static/js/report_scripts.js:11-22 | a formatted number behind a prefix without digits, '.' or '-' reads back as the number |
| ReportFormat.CurrencyReadsBack | app/static/js/report_scripts.js:11-18 | `getCleanNumber(formatAsCurrency(n)) == n` for every whole n, negative ones included |
| ReportFormat.LabelledReadsBack | app/static/js/report_scripts.js:11-54 | an "NT$ " cell written from n reads back as n |
| ReportFormat.PlainReadsBack | app/static/js/report_scripts.js:11-14 | a number written as plain input text reads back as the number |
| Admin.DashOthers | app/routes/admin_routes.py:15 | every character outside CJK U+4E00–U+9FA5, ASCII letters and digits becomes '-', the others stay, the length is kept |
| Admin.CollapseDashes | app/routes/admin_routes.py:17 | the result has no two '-' in a row and only characters of the input, and keeps the first character |
| Admin.LowerAll | app/routes/admin_routes.py:19 | `lower()` maps every character through ASCII lower-casing, keeping the length |
| Text.TrimStart | app/routes/admin_routes.py:19 | `strip('-')` on the left drops exactly the leading '-' characters: a suffix that does not start with '-' |
| Text.TrimEnd | app/routes/admin_routes.py:19 | `strip('-')` on the right drops exactly the trailing '-' characters: a prefix that does not end with '-' (the scaffolding script strips '/' from names the same way) |
| Text.ParseInt | app/routes/report_routes.py:33-43 | `int()` of text that is blank once stripped fails |
| Text.ParseIntToString | app/routes/report_routes.py:33-43 | `int(str(n)) == n` for every whole n, negative ones included |
| Text.StripEmptyIff | app/routes/report_routes.py:33-43 | stripping whitespace leaves nothing iff every character is whitespace |
| Admin.StripDashesShape | app/routes/admin_routes.py:19 | stripping '-' from both ends of text without doubled dashes leaves no '-' at either end |
| Admin.GenerateSlug | app/routes/admin_routes.py:12-19 | a slug holds only CJK U+4E00–U+9FA5, a–z, 0–9 and '-', with no leading, trailing or doubled '-' |
| Admin.CollapseKeeps | app/routes/admin_routes.py:17 | text without doubled dashes is left as it is by the dash-run substitution |
| Admin.DashOthersKeeps | app/routes/admin_routes.py:15 | text of slug characters is left as it is by the first substitution |
| Admin.LowerAllKeeps | app/routes/admin_routes.py:19 | text of slug characters is left as it is by lower-casing |
| Admin.SlugFixpoint | app/routes/admin_routes.py:12-19 | every string of the generated shape is its own slug |
| Admin.GenerateSlugIdempotent | app/routes/admin_routes.py:12-19 | generating the slug of a slug changes nothing |
| Admin.UndashedDashOthers | app/routes/admin_routes.py:15 | apart from dashes, the first substitution leaves exactly the kept characters, in order |
| Admin.UndashedCollapse | app/routes/admin_routes.py:17 | collapsing dash runs removes only dashes |
| Admin.UndashedLower | app/routes/admin_routes.py:19 | lower-casing commutes with removing dashes |
| Admin.UndashedStrip | app/routes/admin_routes.py:19 | stripping '-' from the ends removes only dashes |
| Admin.SlugKeepsCharacters | app/routes/admin_routes.py:12-19 | apart from its dashes, the slug is the name's letters, digits and CJK ideographs, lower-cased, in their order |
| Admin.CollapseAppend | app/routes/admin_routes.py:17 | the dash-run substitution works piece by piece wherever two pieces do not meet dash to dash |
| Admin.CollapseRun | app/routes/admin_routes.py:17 | any run of one or more dashes becomes a single '-' |
| Admin.CollapseLast | app/routes/admin_routes.py:17 | the dash-run substitution keeps the last character |
| Admin.DroppedRunIsOneDash | app/routes/admin_routes.py:12-19 | a run of characters the generator does not keep, of any length, lying between two it keeps, becomes exactly one '-' between the slugs of the two sides |
| Admin.GeneratedSlugPassesForm | app/routes/admin_routes.py:12-19 | a non-empty generated slug of at most 50 characters without CJK ideographs is accepted by the location form's slug validator |
| Admin.NextId | app/models.py:71 | a new location's id is larger than every existing id |
| Admin.AddKeepsUnique | app/routes/admin_routes.py:41-47 | adding a location whose name and slug nobody uses keeps ids, names and slugs unique |
| Admin.ClashBreaksUnique | app/routes/admin_routes.py:41-43 | conversely, adding a clashing location would duplicate a name or a slug |
| Admin.RenameKeepsUnique | app/routes/admin_routes.py:71-77 | renaming a location to a name and slug no other location uses keeps the table unique |
| Admin.RemoveKeepsReferences | app/routes/admin_routes.py:93-97 | removing a location no business day refers to leaves every business day's location in the table |
| Admin.LocationTable.constructor | app/models.py:70-74 | the empty table is valid |
| Admin.LocationTable.Find | app/routes/admin_routes.py:60 | returns a position holding the id, or none when no location has it |
| Admin.LocationTable.FindClash | app/routes/admin_routes.py:41-71 | the conflict query answers true iff another location (other than the excepted id) has the name or the slug |
| Admin.LocationTable.Add | app/routes/admin_routes.py:30-51 | a missing or empty name or slug refuses; otherwise a used name or slug refuses; otherwise exactly one location is appended; a refusal changes nothing; uniqueness is kept |
| Admin.LocationTable.Edit | app/routes/admin_routes.py:58-81 | an unknown id is not found; a missing field or a clash with another location refuses and changes nothing; otherwise only that location's name and slug change |
| Admin.LocationTable.Delete | app/routes/admin_routes.py:88-101 | an unknown id is not found; a location with business days is refused; otherwise exactly that location is removed; references stay intact |
| Admin.LocationTable.AddBusinessDay | app/models.py:81 | a business day is recorded iff its location id is in the table (the foreign key), keeping every reference in the table |
| Models.NewBusinessDay | app/models.py:84-91 | a new day is NOT_STARTED with zero sales, items and transactions and no closing, expected or difference figures |
| Models.GetPermissions | app/models.py:31-34 | NULL or empty gives no permissions; otherwise the pieces between commas, which joined back with ',' give the stored string |
| Models.Can | app/models.py:59-64 | the scan answers true iff some role's permission list contains the permission |
| Models.CheckPassword | app/models.py:51-54 | a user with no (or an empty) password hash never passes; with a non-empty hash the answer is exactly the hash verifier's |
| Models.IndexOfKey | app/models.py:120 | finds a row with the key, or reports that no row has it |
| Models.Lookup | app/models.py:117-121 | `get` returns the default when no row has the key, and otherwise the value of a row with that key |
| Models.Upsert | app/models.py:124-132 | after `set(k, v)`, `get(k)` reads v, every other key reads what it read before, keys stay unique, and a row is added only when k was absent |
| Models.SettingsStore.constructor | app/models.py:112-115 | the empty settings table has unique keys |
| Models.SettingsStore.Set | app/models.py:124-132 | updates the table in place to the upsert of the key, keeps keys unique and reads the new value back |
| Models.SettingUpdateLookup | app/models.py:127-128 | rewriting an existing row in place makes its key find it and moves no other key |
| Models.SettingAppendLookup | app/models.py:129-131 | adding a row for a new key makes that key find it and moves no other key |
| Models.KeyLookupIgnoresOthers | app/models.py:120 | a lookup depends only on where its own key sits |
| Models.UniqueKeyIndex | app/models.py:114 | with unique keys, a key's lookup finds its own row |
| Forms.LocationNameValidIff | app/forms.py:15 | a location name is accepted iff it is at most 50 characters and not all whitespace; a missing one is refused |
| Forms.SlugAsWrittenOnlyAddsNewline | app/forms.py:16-20 | as written, the slug validator accepts every slug of the language and nothing else except values ending in a newline; a missing slug is refused |
| Forms.UsernameAsWrittenOnlyAddsNewline | app/forms.py:123 | as written, the user-name validator accepts every name of the language and nothing else except values ending in a newline; a missing name is refused |
| Forms.PasswordsMatchIff | app/forms.py:124-127 | the password passes iff both fields are missing or both hold the same text |
| Forms.StartDayFormValidIff | app/forms.py:55-60 | a day starts iff the opening cash is a non-zero number and the notes are missing or at most 200 characters |
| Forms.SettlementFormValidIff | app/forms.py:103-108 | a settlement is accepted iff the deposit is blank or a number and the next-day opening cash is a non-zero number |
| Forms.FirstHyphen | app/forms.py:19 | the position found holds the first '-' of the string |
| Forms.SlugShapeByCharacters | app/forms.py:19 | the slug pattern `[a-z0-9]+(?:-[a-z0-9]+)*`, read group by group, accepts exactly the strings of lower-case letters, digits and hyphens with no hyphen at either end and no two in a row |
| Forms.SlugTrailingNewlineAccepted | app/forms.py:16-20 | as written (`re.match` with `$`) the slug validator accepts "ab\n", a value the slug language does not contain |
| Forms.LocationSlugValidIff | app/forms.py:16-20 | with the whole value matched, a slug is accepted iff it is at most 50 characters of the slug language (so it is non-empty) |
| Forms.UsernameTrailingNewlineAccepted | app/forms.py:123 | as written (`re.match` with `$`) the user-name validator accepts "ab\n", a value the user-name language does not contain |
| Forms.UsernameValidIff | app/forms.py:123 | with the whole value matched, a user name is accepted iff it is a letter followed by letters, digits, '_' or '.', at most 64 characters in all |
| Forms.UsernameAvailable | app/forms.py:141-144 | a name is refused iff another user already has it: keeping one's own name is always allowed |
| Forms.RemarkRowCount | app/forms.py:107 | the remark list shows the rows submitted, padded to at least 11 |
| Forms.RemarksDict | app/routes/report_routes.py:565 | every key saved has a non-empty value and comes from a row with a non-empty value, and every such row has its key saved |
| Forms.RemarksDictLastWins | app/routes/report_routes.py:565 | a key takes the value of the last row with that key and a non-empty value |
| ProjectTree.FirstNameIndex | create_project.py:58-64 | the match starts at the first word character or '.', and there is none before it; no match when the text has none |
| ProjectTree.ParseLine | create_project.py:49-73 | a parsed entry has level ≥ −1, a non-empty name starting with a name character, no '#', and no trailing '/' |
| ProjectTree.EntryIn | create_project.py:58-61 | a line without a name character before its comment yields no entry, and only such a line |
| ProjectTree.EntryAt | create_project.py:64-94 | the entry's name runs from the match to the end of the line without trailing '/', and its level is column / 4 − 1 |
| ProjectTree.CleanLineHasNoHash | create_project.py:54 | nothing after the first '#' is kept |
| ProjectTree.HashNotSkipped | create_project.py:49-50 | a line holding a '#' is neither blank nor the bare root line |
| ProjectTree.CommentIgnored | create_project.py:54 | appending a comment to a line that is not skipped does not change its entry |
| ProjectTree.IndentedEntry | create_project.py:58-94 | a name indented by 4 × (k + 1) columns of tree drawing is an entry at level k, a directory iff it ends in '/' |
| ProjectTree.FourColumnsALevel | create_project.py:73 | four columns of indentation per level, four columns being level 0 |
| ProjectTree.IndentedNotSkipped | create_project.py:49-50 | an indented name other than the root line is not skipped |
| ProjectTree.CommentedRootLine | create_project.py:49-73 | the root line followed by a comment is not skipped: it parses as directory `my-flask-app` at level −1 |
| ProjectTree.MakeDirsKeepsFs | create_project.py:99-114 | `os.makedirs` on an unobstructed path keeps the tree well formed, removes nothing and makes the path a directory |
| ProjectTree.MakeDirEntryKeepsFs | create_project.py:94-107 | a directory line keeps the tree well formed, never recreates or overwrites, and the path exists afterwards |
| ProjectTree.MakeFileEntryKeepsFs | create_project.py:108-125 | a file line keeps the tree well formed, makes its parent a directory, never empties an existing file, and the path exists afterwards |
| ProjectTree.PlaceKeepsFs | create_project.py:80-125 | each entry keeps the tree well formed and overwrites nothing |
| ProjectTree.StepKeepsFs | create_project.py:45-125 | each line keeps the tree well formed and overwrites nothing |
| ProjectTree.PlaceKeepsChain | create_project.py:80-107 | the stack stays the root followed by directories each one level inside the one below |
| ProjectTree.EntryParent | create_project.py:80-107 | an entry of level L goes under stack entry L: the stack is popped to L + 1 entries, the path exists afterwards, and only a directory is pushed |
| ProjectTree.ShallowEntryRaises | create_project.py:80-84 | a name in the first four columns (level −1) empties the stack and the parent lookup fails |
| ProjectTree.RunKeepsFs | create_project.py:43-125 | the whole script keeps the tree well formed and overwrites nothing, up to the line it raises on |
| ProjectTree.RunCrashLine | create_project.py:45-125 | the script raises on the line it reports and on none before it |
| ProjectTree.Replay | create_project.py:96-125 | replaying the rest of a finished script on the tree it built makes the same stacks and changes nothing |
| ProjectTree.RunTwice | create_project.py:39-125 | running the script again on what it built changes nothing and raises nowhere |
| ProjectTree.Builder.constructor | create_project.py:39 | the stack starts with the project root alone |
| ProjectTree.Builder.PopTo | create_project.py:80-81 | the stack is popped to at most the given depth, keeping its bottom part |
| ProjectTree.Builder.Step | create_project.py:45-125 | one loop iteration does what the line specification says, and raising leaves the file system as it was |
| ProjectTree.Builder.PlaceEntry | create_project.py:80-125 | pops, computes the full path, creates the directory or file unless it exists and pushes directories, as the entry specification says |
| ProjectTree.Builder.Run | create_project.py:43-125 | the loop over lines ends in the file system and crash line of the whole-script specification |

## Left out

- Google sign-in, Drive and Sheets uploads, and the background threads that start them after closing or confirming a day (app/routes/cashier_routes.py:233-237, 377-381): foreign I/O and concurrency.
- The backup service and its scheduler thread: foreign I/O, threads and sleeping.
- The SQL aggregate reports product_mix, sales_trend and peak_hours, and `get_period_data`'s grouping: these are database queries. The A/B merge is modelled on the grouped rows it returns (`ReportPeriods.MergePeriods`), and `chart_data` is only a projection of the merged lines.
- `sales_perc` and `float('inf')`: floating point. Amounts are whole NT$ throughout, so `Math.round` is the identity and no rounding of fractions is modelled.
- `toLocaleString` and `Intl.NumberFormat` are modelled only for whole numbers in en-US grouping. `adjustFontSizes`, the receipt HTML and the display text are DOM layout and are left out.
- `safeCalculate` (`new Function` evaluation) is the `eval` parameter of `Pos.Calculator`, and `parseFloat` of the typed amount is `parseAmount`. Their results are taken as whole numbers.
- CSV export, the PDF print of the settlement, `render_template`, `flash` messages, redirects, `fetch` calls, CSRF tokens and DOM event wiring: presentation and transport.
- The report table's submit handler (app/static/js/report_scripts.js:207-280) only serialises the inputs and posts them. The rows it posts are the inputs of `ReportEdits`.
- Password hashing is the `verify` parameter of `Models.CheckPassword`. JSON parsing of remarks and cash breakdowns is left out: breakdowns are lists of pairs and remarks a map.
- App factories, configuration, database patch scripts, CLI commands, decorators, the service worker and the OCR route: plumbing.
- Transaction timestamps, `updated_at` columns, location notes beyond their length check, and signatures are not modelled, because no modelled rule reads them.
- Text.ParseInt: Python's `int()` also accepts '_' between digits and non-ASCII digits. The model accepts ASCII digits only.
- ProjectTree.IsWordChar: `\w` is narrowed to ASCII letters, digits, '_' and the CJK block U+4E00–U+9FFF.
- ProjectTree: a name holding an inner '/' is kept as one path component, and "." and ".." are not normalised. The project root is an abstract empty path, and file contents and permissions are not modelled beyond "empty file".
- ProjectTree: when the structure file is missing the script prints a message and returns (create_project.py:24-26); reading the file and printing are I/O, so the model starts from the outline's lines.
- ProjectTree.RunCrashLine: after the script raises, only the file system is specified, not the stack.
- ReportTable.CancelRestoresEdit: the round trip is proved for well-formed rows only. Row ids must be distinct, captured cells must be filed under distinct keys, and no field may be named `cash_breakdown` or `items` or clash with a breakdown cell's field. The pages render their tables that way.
- ReportTable.Table.Cancel: a cell that throws halfway through a row (a missing `.display-value` element) is not modelled. Every editable cell is taken to have its display and input.
- ReportTable.Table.UpdateDailyCashCheckRow: a grand-total row without its `.grand-total-closing-cash` cell is not modelled; the page always renders one.
- ReportFormat.GetCleanNumber: the fraction `parseFloat` reads after a '.' is dropped, because amounts are whole NT$.
- Pos.Calculator.Checkout: the awaited `sendTransaction` is modelled as sending the expanded receipt. The server's reply and a failed request, which only change the display, are left out.
- Pos.Calculator.HandleOtherIncome: the `type` argument (donation or other income) only selects the category the server books, so it is not modelled.
- Cashier: `app/models.py` declares `Transaction` with only its amount, item count and business day (lines 101-108), and declares no `TransactionItem`, `Category` or `DailySettlement`. The report routes import and use them (app/routes/report_routes.py:4, 317-325, 566): a transaction's `cash_received`, `change_given` and items, and the settlement record. The model's `Cashier.Transaction` cash and items, `Cashier.TxItem`, the item edits and `Report.Settlement` take their shape from those routes.
- Cashier: `location` in the cashier routes is a name, while `app/models.py` links a business day to a location id. Both are the same opaque key here.

## Findings

| source | as written | input that shows it | evidently intended | confidence | as-written member | corrected member |
|---|---|---|---|---|---|---|
| app/forms.py:19 | `Regexp(r'^[a-z0-9]+(?:-[a-z0-9]+)*$')` is checked with `re.match`, whose `$` also matches before a final newline | slug "ab\n" passes the validator | the whole value is a slug: lower-case letters and digits in groups joined by single '-' | not executed | Forms.SlugTrailingNewlineAccepted | Forms.LocationSlugValidIff |
| app/forms.py:123 | `Regexp('^[A-Za-z][A-Za-z0-9_.]*$')` is checked with `re.match`, whose `$` also matches before a final newline | user name "ab\n" passes the validator | the whole value is a user name: a letter, then letters, digits, '_' or '.' | not executed | Forms.UsernameTrailingNewlineAccepted | Forms.UsernameValidIff |
