/**
 * The reporting side of the back office: period ranges for the A/B
 * comparison, the carry-forward check between one day's settlement and the
 * next day's opening cash, the settlement letter totals A to K, the
 * one-settlement-per-date book, the two calendar status APIs and the A/B
 * merge of periodic figures.
 */
module Report {
  import opened Wrappers
  import opened Text
  import opened Calendar
  import opened Models
  import opened Forms
  import Cashier

  // ---------------------------------------------------------------------
  // Period ranges
  // ---------------------------------------------------------------------

  /**
   * The (start, end) pair `get_date_range_from_period` returns: a range,
   * `(None, None)` for a caught ValueError/TypeError, or an uncaught error.
   */
  datatype PeriodRange = Range(start: Date, end: Date) | NoRange | Raises

  /** Month `m` of year `y`, when `date(y, m, 1)` exists. */
  function MonthRangeOf(y: int, m: int): (r: PeriodRange)
    ensures r != Raises
    ensures r.Range? ==> ValidDate(r.start) && ValidDate(r.end) && DateLe(r.start, r.end)
  {
    if ValidDate(Date(y, m, 1)) then Range(Date(y, m, 1), Date(y, m, DaysInMonth(y, m))) else NoRange
  }

  /** Quarter `q` of year `y`: its first month is 3(q-1)+1 and its last month two after. */
  function QuarterRangeOf(y: int, q: int): (r: PeriodRange)
    ensures r != Raises
    ensures r.Range? ==> ValidDate(r.start) && ValidDate(r.end) && DateLe(r.start, r.end)
  {
    var startMonth := (q - 1) * 3 + 1;
    var endMonth := startMonth + 2;
    if ValidDate(Date(y, startMonth, 1)) then
      assert 1 <= q <= 4;
      Range(Date(y, startMonth, 1), Date(y, endMonth, DaysInMonth(y, endMonth)))
    else NoRange
  }

  /** The whole of year `y`, when `date(y, 1, 1)` exists. */
  function YearRangeOf(y: int): (r: PeriodRange)
    ensures r != Raises
    ensures r.Range? ==> ValidDate(r.start) && ValidDate(r.end) && DateLe(r.start, r.end)
  {
    if ValidDate(Date(y, 1, 1)) then Range(Date(y, 1, 1), Date(y, 12, 31)) else NoRange
  }

  /** The month period "YYYY-MM": exactly two '-'-separated integers. */
  function MonthPeriod(periodStr: string): (r: PeriodRange)
    ensures r != Raises
  {
    var parts := Split(periodStr, '-');
    if |parts| != 2 then NoRange
    else
      var y := ParseInt(parts[0]);
      var m := ParseInt(parts[1]);
      if y.Some? && m.Some? then MonthRangeOf(y.value, m.value) else NoRange
  }

  /** The quarter period: a year and a quarter number, both integers. */
  function QuarterPeriod(year: Option<string>, quarter: Option<string>): (r: PeriodRange)
    ensures r != Raises
  {
    if year.None? || quarter.None? then NoRange
    else
      var y := ParseInt(year.value);
      var q := ParseInt(quarter.value);
      if y.Some? && q.Some? then QuarterRangeOf(y.value, q.value) else NoRange
  }

  /** The year period: a year integer. */
  function YearPeriod(year: Option<string>): (r: PeriodRange)
    ensures r != Raises
  {
    if year.None? then NoRange
    else
      var y := ParseInt(year.value);
      if y.Some? then YearRangeOf(y.value) else NoRange
  }

  /**
   * `get_date_range_from_period`. A missing period string for a month
   * raises (`None.split`), and so does an unknown time unit (the result
   * variables are never bound); every range it returns is a pair of real
   * dates in order.
   */
  function GetDateRangeFromPeriod(timeUnit: Option<string>, year: Option<string>, quarter: Option<string>, periodStr: Option<string>): (r: PeriodRange)
    ensures r.Range? ==> ValidDate(r.start) && ValidDate(r.end) && DateLe(r.start, r.end)
    ensures r == Raises <==>
      (timeUnit != Some("month") && timeUnit != Some("quarter") && timeUnit != Some("year"))
      || (timeUnit == Some("month") && periodStr.None?)
  {
    if timeUnit == Some("month") then
      if periodStr.None? then Raises else MonthPeriod(periodStr.value)
    else if timeUnit == Some("quarter") then QuarterPeriod(year, quarter)
    else if timeUnit == Some("year") then YearPeriod(year)
    else Raises
  }

  /** "YYYY-MM" for a valid month covers day 1 to the month's last day; an invalid month gives no range. */
  lemma MonthPeriodRange(ys: string, ms: string, y: int, m: int)
    requires '-' !in ys && '-' !in ms
    requires ParseInt(ys) == Some(y) && ParseInt(ms) == Some(m)
    ensures GetDateRangeFromPeriod(Some("month"), None, None, Some(ys + "-" + ms)) ==
      if 1 <= y <= 9999 && 1 <= m <= 12 then Range(Date(y, m, 1), Date(y, m, DaysInMonth(y, m))) else NoRange
  {
    SplitAtFirst(ys, '-', ms);
    SplitWithoutSeparator(ms, '-');
    assert ys + "-" + ms == ys + ['-'] + ms;
    assert MonthPeriod(ys + "-" + ms) == MonthRangeOf(y, m);
    MonthRangeValue(y, m);
  }

  /** Month `m` of year `y` as dates, when both are in range. */
  lemma MonthRangeValue(y: int, m: int)
    ensures MonthRangeOf(y, m) ==
      if 1 <= y <= 9999 && 1 <= m <= 12 then Range(Date(y, m, 1), Date(y, m, DaysInMonth(y, m))) else NoRange
  {
  }

  /** Quarter q in 1..4 runs from month 3(q-1)+1 day 1 to the last day of month 3q; any other quarter gives no range. */
  lemma QuarterPeriodRange(ys: string, qs: string, y: int, q: int)
    requires ParseInt(ys) == Some(y) && ParseInt(qs) == Some(q)
    ensures GetDateRangeFromPeriod(Some("quarter"), Some(ys), Some(qs), None) ==
      if 1 <= y <= 9999 && 1 <= q <= 4 then Range(Date(y, 3 * (q - 1) + 1, 1), Date(y, 3 * q, DaysInMonth(y, 3 * q))) else NoRange
  {
    assert QuarterPeriod(Some(ys), Some(qs)) == QuarterRangeOf(y, q);
    QuarterRangeValue(y, q);
  }

  /** Quarter `q` of year `y` as dates, when both are in range. */
  lemma QuarterRangeValue(y: int, q: int)
    ensures QuarterRangeOf(y, q) ==
      if 1 <= y <= 9999 && 1 <= q <= 4 then Range(Date(y, 3 * (q - 1) + 1, 1), Date(y, 3 * q, DaysInMonth(y, 3 * q))) else NoRange
  {
  }

  /** A year in 1..9999 runs from 1 January to 31 December; any other year gives no range. */
  lemma YearPeriodRange(ys: string, y: int)
    requires ParseInt(ys) == Some(y)
    ensures GetDateRangeFromPeriod(Some("year"), Some(ys), None, None) ==
      if 1 <= y <= 9999 then Range(Date(y, 1, 1), Date(y, 12, 31)) else NoRange
  {
  }

  /** A quarter or year that is missing or not a number gives no range. */
  lemma MalformedPeriodGivesNoRange(year: Option<string>, quarter: Option<string>)
    requires year.None? || ParseInt(year.value).None?
    ensures GetDateRangeFromPeriod(Some("quarter"), year, quarter, None) == NoRange
    ensures GetDateRangeFromPeriod(Some("year"), year, quarter, None) == NoRange
  {
  }

  // ---------------------------------------------------------------------
  // Carry-forward check (the combined_summary_final report)
  // ---------------------------------------------------------------------

  /** One day's settlement across all locations. */
  datatype Settlement = Settlement(totalDeposit: Option<int>, nextDayOpeningCash: int, remarks: map<string, string>)

  /** The date (a day number) and opening cash of one location's business day. */
  datatype OpeningRecord = OpeningRecord(date: int, openingCash: int)

  /** One line of the carry-forward check. */
  datatype CheckRow = CheckRow(date: int, cashCheckDiff: int, yesterdayTotal: int, todayTotal: int)

  /** Sum of the opening cash of the business days on `d`. */
  function OpeningCashOn(days: seq<OpeningRecord>, d: int): int {
    if days == [] then 0
    else OpeningCashOn(days[..|days| - 1], d) + (if days[|days| - 1].date == d then days[|days| - 1].openingCash else 0)
  }

  predicate HasReports(days: seq<OpeningRecord>, d: int) {
    exists i :: 0 <= i < |days| && days[i].date == d
  }

  /** The next-day opening cash the settlement of the day before `d` handed over; 0 when that day was not settled. */
  function CarriedOver(settlements: map<int, Settlement>, d: int): int {
    if d - 1 in settlements then settlements[d - 1].nextDayOpeningCash else 0
  }

  /** The check for day `d`, if it has a line at all. */
  function CheckRowOn(settlements: map<int, Settlement>, days: seq<OpeningRecord>, d: int): seq<CheckRow> {
    var yesterday := CarriedOver(settlements, d);
    var today := OpeningCashOn(days, d);
    if HasReports(days, d) || d - 1 in settlements then [CheckRow(d, today - yesterday, yesterday, today)] else []
  }

  /** The lines of the carry-forward check for the days `start` to `end`. */
  function CarryForwardRows(settlements: map<int, Settlement>, days: seq<OpeningRecord>, start: int, end: int): (rows: seq<CheckRow>)
    ensures end < start ==> rows == []
    ensures end >= start ==> |rows| <= end - start + 1
    decreases end - start + 1
  {
    if end < start then [] else CarryForwardRows(settlements, days, start, end - 1) + CheckRowOn(settlements, days, end)
  }

  /** The lines of the carry-forward check are in ascending date order and lie within the range. */
  lemma {:induction false} CarryForwardRowsOrdered(settlements: map<int, Settlement>, days: seq<OpeningRecord>, start: int, end: int, rows: seq<CheckRow>)
    requires rows == CarryForwardRows(settlements, days, start, end)
    ensures forall i :: 0 <= i < |rows| ==> start <= rows[i].date <= end
    ensures forall i, j :: 0 <= i < j < |rows| ==> rows[i].date < rows[j].date
    decreases end - start + 1
  {
    if end >= start {
      var prefix := CarryForwardRows(settlements, days, start, end - 1);
      CarryForwardRowsOrdered(settlements, days, start, end - 1, prefix);
      var last := CheckRowOn(settlements, days, end);
      assert rows == prefix + last;
      assert |last| <= 1 && forall i :: 0 <= i < |last| ==> last[i].date == end;
      forall i | 0 <= i < |rows|
        ensures start <= rows[i].date <= end
      {
        if i < |prefix| { assert rows[i] == prefix[i]; } else { assert rows[i] == last[i - |prefix|]; }
      }
      forall i, j | 0 <= i < j < |rows|
        ensures rows[i].date < rows[j].date
      {
        assert rows[i] == prefix[i];
        if j < |prefix| { assert rows[j] == prefix[j]; } else { assert rows[j] == last[j - |prefix|]; }
      }
    }
  }

  /** Each line's difference is the day's opening cash minus what the previous day's settlement handed over. */
  lemma {:induction false} CarryForwardRowsDiff(settlements: map<int, Settlement>, days: seq<OpeningRecord>, start: int, end: int, rows: seq<CheckRow>)
    requires rows == CarryForwardRows(settlements, days, start, end)
    ensures forall i :: 0 <= i < |rows| ==>
      && rows[i].yesterdayTotal == CarriedOver(settlements, rows[i].date)
      && rows[i].todayTotal == OpeningCashOn(days, rows[i].date)
      && rows[i].cashCheckDiff == rows[i].todayTotal - rows[i].yesterdayTotal
    decreases end - start + 1
  {
    if end >= start {
      var prefix := CarryForwardRows(settlements, days, start, end - 1);
      CarryForwardRowsDiff(settlements, days, start, end - 1, prefix);
      var last := CheckRowOn(settlements, days, end);
      assert rows == prefix + last;
      forall i | 0 <= i < |rows|
        ensures rows[i].yesterdayTotal == CarriedOver(settlements, rows[i].date)
        ensures rows[i].todayTotal == OpeningCashOn(days, rows[i].date)
        ensures rows[i].cashCheckDiff == rows[i].todayTotal - rows[i].yesterdayTotal
      {
        if i < |prefix| { assert rows[i] == prefix[i]; } else { assert rows[i] == last[i - |prefix|]; }
      }
    }
  }

  /** `rows` has a line for day `d`. */
  predicate HasLine(rows: seq<CheckRow>, d: int) {
    exists i :: 0 <= i < |rows| && rows[i].date == d
  }

  lemma HasLineConcat(a: seq<CheckRow>, b: seq<CheckRow>, d: int)
    ensures HasLine(a + b, d) <==> HasLine(a, d) || HasLine(b, d)
  {
    if HasLine(a + b, d) {
      var i :| 0 <= i < |a + b| && (a + b)[i].date == d;
      if i >= |a| { assert b[i - |a|] == (a + b)[i]; }
    }
    if HasLine(a, d) {
      var i :| 0 <= i < |a| && a[i].date == d;
      assert (a + b)[i] == a[i];
    }
    if HasLine(b, d) {
      var i :| 0 <= i < |b| && b[i].date == d;
      assert (a + b)[|a| + i] == b[i];
    }
  }

  /** A day of the range has a line exactly when it has reports or the day before it was settled. */
  lemma {:induction false} CarryForwardRowsComplete(settlements: map<int, Settlement>, days: seq<OpeningRecord>, start: int, end: int, rows: seq<CheckRow>, d: int)
    requires rows == CarryForwardRows(settlements, days, start, end)
    requires start <= d <= end
    ensures HasLine(rows, d) <==> HasReports(days, d) || d - 1 in settlements
    decreases end - start + 1
  {
    var prefix := CarryForwardRows(settlements, days, start, end - 1);
    var last := CheckRowOn(settlements, days, end);
    assert rows == prefix + last;
    HasLineConcat(prefix, last, d);
    if d < end {
      CarryForwardRowsComplete(settlements, days, start, end - 1, prefix, d);
      assert !HasLine(last, d);
    } else {
      CarryForwardRowsOrdered(settlements, days, start, end - 1, prefix);
      assert !HasLine(prefix, d);
      if last != [] {
        assert last[0].date == d;
      }
    }
  }

  /**
   * The carry-forward loop of the `combined_summary_final` report: walks
   * the days from `start` to `end` and emits a line for each day that has
   * reports or follows a settled day.
   */
  method CarryForwardCheck(settlements: map<int, Settlement>, days: seq<OpeningRecord>, start: int, end: int)
    returns (rows: seq<CheckRow>)
    ensures rows == CarryForwardRows(settlements, days, start, end)
  {
    rows := [];
    var current := start;
    while current <= end
      invariant start <= current
      invariant current <= end + 1 || current == start
      invariant rows == CarryForwardRows(settlements, days, start, current - 1)
      decreases end - current
    {
      var yesterday := CarriedOver(settlements, current);
      var today := OpeningCashOn(days, current);
      if HasReports(days, current) || current - 1 in settlements {
        rows := rows + [CheckRow(current, today - yesterday, yesterday, today)];
      }
      current := current + 1;
    }
  }

  // ---------------------------------------------------------------------
  // Settlement letter totals
  // ---------------------------------------------------------------------

  /** A closed report of one location with its donation and other-income totals. */
  datatype ClosedReport = ClosedReport(day: BusinessDay, donationTotal: int, otherTotal: int)

  /** The per-location columns the settlement page adds up. */
  datatype Column = ExpectedCol | SalesCol | OpeningCol | ClosingCol | DiffCol | TransactionsCol | ItemsCol | OtherCashCol

  /** One location's value in a column; a NULL reads as 0. */
  function ColumnValue(r: ClosedReport, c: Column): int {
    match c
    case ExpectedCol => r.day.expectedCash.GetOr(0)
    case SalesCol => r.day.totalSales
    case OpeningCol => r.day.openingCash
    case ClosingCol => r.day.closingCash.GetOr(0)
    case DiffCol => r.day.cashDiff.GetOr(0)
    case TransactionsCol => r.day.totalTransactions
    case ItemsCol => r.day.totalItems
    case OtherCashCol => r.donationTotal + r.otherTotal
  }

  function ColumnSum(reports: seq<ClosedReport>, c: Column): int {
    if reports == [] then 0 else ColumnSum(reports[..|reports| - 1], c) + ColumnValue(reports[|reports| - 1], c)
  }

  /** The letters of the settlement sheet. */
  datatype GrandTotal = GrandTotal(a: int, b: int, c: int, d: int, e: int, f: int, g: int, h: Option<int>, i: int, j: int, k: int)

  /**
   * The settlement sheet: A expected, B sales, C opening, D counted cash,
   * E over/short, F other cash, G the day's total cash, H deposit, I next
   * day's opening cash, J transactions, K items. Before the day is settled
   * nothing is held back for tomorrow and everything is proposed for
   * deposit; afterwards H and I are the stored figures.
   */
  function SettlementTotals(reports: seq<ClosedReport>, stored: Option<Settlement>): (t: GrandTotal)
    ensures t.a == ColumnSum(reports, ExpectedCol) && t.b == ColumnSum(reports, SalesCol)
    ensures t.c == ColumnSum(reports, OpeningCol) && t.d == ColumnSum(reports, ClosingCol)
    ensures t.j == ColumnSum(reports, TransactionsCol) && t.k == ColumnSum(reports, ItemsCol)
    ensures t.f == ColumnSum(reports, OtherCashCol)
    ensures t.e == t.d - t.a && t.g == t.d + t.f
    ensures stored.None? ==> t.i == 0 && t.h == Some(t.g - t.i)
    ensures stored.Some? ==> t.h == stored.value.totalDeposit && t.i == stored.value.nextDayOpeningCash
  {
    var a := ColumnSum(reports, ExpectedCol);
    var d := ColumnSum(reports, ClosingCol);
    var f := ColumnSum(reports, OtherCashCol);
    var g := d + f;
    var hi := if stored.Some? then (stored.value.totalDeposit, stored.value.nextDayOpeningCash) else (Some(g - 0), 0);
    GrandTotal(a, ColumnSum(reports, SalesCol), ColumnSum(reports, OpeningCol), d, d - a, f, g, hi.0, hi.1,
      ColumnSum(reports, TransactionsCol), ColumnSum(reports, ItemsCol))
  }

  /**
   * When every closed report is reconciled (as the register keeps them),
   * A is C + B and the sheet's over/short E is the sum of the locations'
   * own cash differences.
   */
  lemma {:induction false} ReconciledSheet(reports: seq<ClosedReport>, stored: Option<Settlement>)
    requires forall i :: 0 <= i < |reports| ==> Cashier.Reconciled(reports[i].day)
    ensures var t := SettlementTotals(reports, stored);
      t.a == t.c + t.b && t.e == ColumnSum(reports, DiffCol)
  {
    ReconciledColumns(reports);
  }

  lemma {:induction false} ReconciledColumns(reports: seq<ClosedReport>)
    requires forall i :: 0 <= i < |reports| ==> Cashier.Reconciled(reports[i].day)
    ensures ColumnSum(reports, ExpectedCol) == ColumnSum(reports, OpeningCol) + ColumnSum(reports, SalesCol)
    ensures ColumnSum(reports, DiffCol) == ColumnSum(reports, ClosingCol) - ColumnSum(reports, ExpectedCol)
  {
    if reports != [] {
      ReconciledColumns(reports[..|reports| - 1]);
      assert Cashier.Reconciled(reports[|reports| - 1].day);
    }
  }

  /** A business day on the settlement date: its location and status. */
  datatype DayEntry = DayEntry(location: string, status: Status)

  /** Locations that opened on the date but have no CLOSED report. */
  function UnclosedLocations(entries: seq<DayEntry>): (u: set<string>)
    ensures forall l :: l in u <==>
      (exists i :: 0 <= i < |entries| && entries[i].location == l)
      && (forall i :: 0 <= i < |entries| && entries[i].location == l ==> entries[i].status != Closed)
  {
    var openedLocs := set i | 0 <= i < |entries| :: entries[i].location;
    var closed := set i | 0 <= i < |entries| && entries[i].status == Closed :: entries[i].location;
    openedLocs - closed
  }

  /** `all_closed`: every location that opened on the date has a CLOSED report. */
  function AllClosed(entries: seq<DayEntry>): (b: bool)
    ensures b <==> forall i :: 0 <= i < |entries| ==>
      exists j :: 0 <= j < |entries| && entries[j].location == entries[i].location && entries[j].status == Closed
  {
    var u := UnclosedLocations(entries);
    if u == {} then
      assert forall i :: 0 <= i < |entries| ==> entries[i].location !in u;
      true
    else
      var l :| l in u;
      false
  }

  // ---------------------------------------------------------------------
  // Saving the settlement
  // ---------------------------------------------------------------------

  /** What `save_settlement` does with a submission. */
  datatype SaveResult = Saved | FormRejected | AlreadySettled | Raised

  /** The deposit as stored: a blank field is NULL. */
  function DepositValue(deposit: FloatInput): Option<int> {
    if deposit.Value? then Some(deposit.v) else None
  }

  /** The daily settlements, at most one per date. */
  class SettlementBook {
    var settlements: map<int, Settlement>

    constructor ()
      ensures settlements == map[]
    {
      settlements := map[];
    }

    /**
     * `save_settlement`. `date` is the hidden date field as parsed, None
     * when it is not an ISO date (the route does not catch that error).
     * An invalid form and an already settled date change nothing; a
     * stored settlement is never overwritten.
     */
    method SaveSettlement(date: Option<int>, deposit: FloatInput, nextDayOpeningCash: FloatInput, remarks: seq<(string, string)>)
      returns (r: SaveResult)
      modifies this
      ensures forall d :: d in old(settlements) ==> d in settlements && settlements[d] == old(settlements)[d]
      ensures !SettlementFormValid(deposit, nextDayOpeningCash) ==> r == FormRejected && settlements == old(settlements)
      ensures SettlementFormValid(deposit, nextDayOpeningCash) && date.None? ==> r == Raised && settlements == old(settlements)
      ensures SettlementFormValid(deposit, nextDayOpeningCash) && date.Some? && date.value in old(settlements) ==>
        r == AlreadySettled && settlements == old(settlements)
      ensures SettlementFormValid(deposit, nextDayOpeningCash) && date.Some? && date.value !in old(settlements) ==>
        r == Saved && settlements == old(settlements)[date.value := Settlement(DepositValue(deposit), nextDayOpeningCash.v, RemarksDict(remarks))]
    {
      if !SettlementFormValid(deposit, nextDayOpeningCash) {
        return FormRejected;
      }
      if date.None? {
        return Raised;
      }
      if date.value in settlements {
        return AlreadySettled;
      }
      settlements := settlements[date.value := Settlement(DepositValue(deposit), nextDayOpeningCash.v, RemarksDict(remarks))];
      r := Saved;
    }
  }

  // ---------------------------------------------------------------------
  // Calendar status APIs
  // ---------------------------------------------------------------------

  /** A business day as the status APIs read it. */
  datatype DayRecord = DayRecord(date: Date, status: Status, location: string)

  datatype SettlementDayStatus = Settled | Pending | InProgress | NoData
  datatype QueryDayStatus = QueryInProgress | Ready | QueryNoData

  /** The reply of a status API: 400, an uncaught error, or a status per date of the month. */
  datatype StatusReply<T> = BadRequest | ServerError | Statuses(days: map<Date, T>)

  function OpenedOn(records: seq<DayRecord>, d: Date): set<string> {
    set i | 0 <= i < |records| && records[i].date == d :: records[i].location
  }

  function ClosedOn(records: seq<DayRecord>, d: Date): set<string> {
    set i | 0 <= i < |records| && records[i].date == d && records[i].status == Closed :: records[i].location
  }

  /** Some business day falls on `d`. */
  predicate HasRecords(records: seq<DayRecord>, d: Date) {
    exists i :: 0 <= i < |records| && records[i].date == d
  }

  /** Every location with a business day on `d` has a CLOSED one on `d`. */
  predicate AllOpenedClosed(records: seq<DayRecord>, d: Date) {
    forall i :: 0 <= i < |records| && records[i].date == d ==> ClosedAt(records, d, records[i].location)
  }

  /** Location `l` has a CLOSED business day on `d`. */
  predicate ClosedAt(records: seq<DayRecord>, d: Date, l: string) {
    exists j :: 0 <= j < |records| && records[j].date == d && records[j].location == l && records[j].status == Closed
  }

  /** The route's set comparison: the opened set is non-empty and equals the closed set exactly when some record falls on the day and every opened location closed. */
  lemma OpenedNonEmpty(records: seq<DayRecord>, d: Date)
    ensures |OpenedOn(records, d)| > 0 <==> HasRecords(records, d)
  {
    var openedLocs := OpenedOn(records, d);
    if HasRecords(records, d) {
      var i :| 0 <= i < |records| && records[i].date == d;
      assert records[i].location in openedLocs;
    }
  }

  lemma AllClosedMeansEqual(records: seq<DayRecord>, d: Date)
    requires AllOpenedClosed(records, d)
    ensures OpenedOn(records, d) == ClosedOn(records, d)
  {
    var openedLocs := OpenedOn(records, d);
    var closed := ClosedOn(records, d);
    forall l | l in openedLocs
      ensures l in closed
    {
      var i :| 0 <= i < |records| && records[i].date == d && records[i].location == l;
      assert ClosedAt(records, d, l);
      var j :| 0 <= j < |records| && records[j].date == d && records[j].location == l && records[j].status == Closed;
      assert records[j].location in closed;
    }
    forall l | l in closed
      ensures l in openedLocs
    {
      var j :| 0 <= j < |records| && records[j].date == d && records[j].status == Closed && records[j].location == l;
      assert records[j].location in openedLocs;
    }
  }

  lemma EqualMeansAllClosed(records: seq<DayRecord>, d: Date)
    requires OpenedOn(records, d) == ClosedOn(records, d)
    ensures AllOpenedClosed(records, d)
  {
    var openedLocs := OpenedOn(records, d);
    var closed := ClosedOn(records, d);
    forall i | 0 <= i < |records| && records[i].date == d
      ensures ClosedAt(records, d, records[i].location)
    {
      assert records[i].location in openedLocs;
      assert records[i].location in closed;
    }
  }

  /** The route compares the set of opened locations with the set of closed ones; they are equal exactly when every opened location closed. */
  lemma OpenedEqualsClosed(records: seq<DayRecord>, d: Date)
    ensures OpenedOn(records, d) == ClosedOn(records, d) <==> AllOpenedClosed(records, d)
  {
    if AllOpenedClosed(records, d) {
      AllClosedMeansEqual(records, d);
    }
    if OpenedOn(records, d) == ClosedOn(records, d) {
      EqualMeansAllClosed(records, d);
    }
  }

  /**
   * The settlement calendar's status of one day: settled dominates; a day
   * whose every opened location has a CLOSED report is pending; a day with
   * records is otherwise in progress; a day without any has no data.
   */
  function SettlementStatusOf(records: seq<DayRecord>, settled: set<Date>, d: Date): (s: SettlementDayStatus)
    ensures s == Settled <==> d in settled
    ensures s == Pending <==> (d !in settled && HasRecords(records, d) && AllOpenedClosed(records, d))
    ensures s == InProgress <==> (d !in settled && HasRecords(records, d) && !AllOpenedClosed(records, d))
    ensures s == NoData <==> (d !in settled && !HasRecords(records, d))
  {
    var openedLocs := OpenedOn(records, d);
    var closed := ClosedOn(records, d);
    OpenedNonEmpty(records, d);
    OpenedEqualsClosed(records, d);
    if d in settled then Settled
    else if d in DatesOf(records) then
      if |openedLocs| > 0 && openedLocs == closed then Pending else InProgress
    else NoData
  }

  /** The dates that have at least one business day. */
  function DatesOf(records: seq<DayRecord>): (ds: set<Date>)
    ensures forall d :: d in ds <==> HasRecords(records, d)
  {
    set i | 0 <= i < |records| :: records[i].date
  }

  /** The query calendar's status of one day: in progress while any record is OPEN or PENDING_REPORT, ready otherwise, no data without records. */
  function QueryStatusOf(records: seq<DayRecord>, d: Date): (s: QueryDayStatus)
    ensures s == QueryNoData <==> forall i :: 0 <= i < |records| ==> records[i].date != d
    ensures s == QueryInProgress <==>
      exists i :: 0 <= i < |records| && records[i].date == d && records[i].status in {Open, PendingReport}
  {
    var statuses := set i | 0 <= i < |records| && records[i].date == d :: records[i].status;
    if exists i :: 0 <= i < |records| && records[i].date == d then
      if Open in statuses || PendingReport in statuses then QueryInProgress else Ready
    else QueryNoData
  }

  /** `not year or not month`: missing, unparsable or 0. */
  predicate MissingYearOrMonth(year: Option<int>, month: Option<int>) {
    year.None? || year == Some(0) || month.None? || month == Some(0)
  }

  /**
   * The month's first day cannot be built, or (for December 9999) the
   * route's "first day + 32 days" steps past the last representable date.
   */
  predicate MonthOverflows(y: int, m: int) {
    !ValidDate(Date(y, m, 1)) || (y == 9999 && m == 12)
  }

  /** `settlement_status_api`: one status per day of the requested month. */
  method SettlementStatusApi(year: Option<int>, month: Option<int>, records: seq<DayRecord>, settled: set<Date>)
    returns (reply: StatusReply<SettlementDayStatus>)
    ensures MissingYearOrMonth(year, month) ==> reply == BadRequest
    ensures !MissingYearOrMonth(year, month) ==>
      (reply == ServerError <==> MonthOverflows(year.value, month.value))
    ensures reply.Statuses? ==> (!MissingYearOrMonth(year, month) && !MonthOverflows(year.value, month.value)
      && var y := year.value; var m := month.value;
      && (forall d :: d in reply.days ==> d.year == y && d.month == m && 1 <= d.day <= DaysInMonth(y, m))
      && (forall n :: 1 <= n <= DaysInMonth(y, m) ==>
            Date(y, m, n) in reply.days && reply.days[Date(y, m, n)] == SettlementStatusOf(records, settled, Date(y, m, n))))
  {
    if MissingYearOrMonth(year, month) {
      return BadRequest;
    }
    var y, m := year.value, month.value;
    if MonthOverflows(y, m) {
      return ServerError;
    }
    var last := DaysInMonth(y, m);
    var days: map<Date, SettlementDayStatus> := map[];
    var n := 1;
    while n <= last
      invariant 1 <= n <= last + 1
      invariant forall d :: d in days ==> d.year == y && d.month == m && 1 <= d.day < n
      invariant forall k :: 1 <= k < n ==> Date(y, m, k) in days && days[Date(y, m, k)] == SettlementStatusOf(records, settled, Date(y, m, k))
    {
      var d := Date(y, m, n);
      days := days[d := SettlementStatusOf(records, settled, d)];
      n := n + 1;
    }
    reply := Statuses(days);
  }

  /** `query_status_api`: one status per day of the requested month. */
  method QueryStatusApi(year: Option<int>, month: Option<int>, records: seq<DayRecord>)
    returns (reply: StatusReply<QueryDayStatus>)
    ensures MissingYearOrMonth(year, month) ==> reply == BadRequest
    ensures !MissingYearOrMonth(year, month) ==>
      (reply == ServerError <==> MonthOverflows(year.value, month.value))
    ensures reply.Statuses? ==> (!MissingYearOrMonth(year, month) && !MonthOverflows(year.value, month.value)
      && var y := year.value; var m := month.value;
      && (forall d :: d in reply.days ==> d.year == y && d.month == m && 1 <= d.day <= DaysInMonth(y, m))
      && (forall n :: 1 <= n <= DaysInMonth(y, m) ==>
            Date(y, m, n) in reply.days && reply.days[Date(y, m, n)] == QueryStatusOf(records, Date(y, m, n))))
  {
    if MissingYearOrMonth(year, month) {
      return BadRequest;
    }
    var y, m := year.value, month.value;
    if MonthOverflows(y, m) {
      return ServerError;
    }
    var last := DaysInMonth(y, m);
    var days: map<Date, QueryDayStatus> := map[];
    var n := 1;
    while n <= last
      invariant 1 <= n <= last + 1
      invariant forall d :: d in days ==> d.year == y && d.month == m && 1 <= d.day < n
      invariant forall k :: 1 <= k < n ==> Date(y, m, k) in days && days[Date(y, m, k)] == QueryStatusOf(records, Date(y, m, k))
    {
      var d := Date(y, m, n);
      days := days[d := QueryStatusOf(records, d)];
      n := n + 1;
    }
    reply := Statuses(days);
  }
}
