/**
 * The cashier's business-day life cycle for each location: start the day
 * with an opening cash float, record transactions against the open day,
 * count the cash drawer (which moves the day to PENDING_REPORT), and
 * confirm the daily report (which closes the day and fixes the expected
 * cash and the cash difference).
 */
module Cashier {
  import opened Wrappers
  import opened Models

  /** A day record is looked up by its date and its location. Dates are day numbers. */
  datatype DayKey = DayKey(date: int, location: string)

  /** A JSON value from a request body; numbers are whole NT$. */
  datatype Json = JNull | JBool(b: bool) | JInt(i: int) | JFloat(f: int) | JStr(s: string) | JList(len: nat) | JDict(len: nat)

  /** Python truthiness of a decoded JSON value. */
  predicate Truthy(j: Json) {
    match j
    case JNull => false
    case JBool(b) => b
    case JInt(i) => i != 0
    case JFloat(f) => f != 0
    case JStr(s) => s != []
    case JList(n) => n > 0
    case JDict(n) => n > 0
  }

  /** `isinstance(j, int)`; Python's `bool` is a subclass of `int`. */
  predicate IsInt(j: Json) { j.JInt? || j.JBool? }

  /** `isinstance(j, (int, float))`. */
  predicate IsNumber(j: Json) { IsInt(j) || j.JFloat? }

  function NumValue(j: Json): int
    requires IsNumber(j)
  {
    match j
    case JInt(i) => i
    case JFloat(f) => f
    case JBool(b) => if b then 1 else 0
  }

  /** `data.get(name)`: a missing key reads as None. */
  function Field(data: map<string, Json>, name: string): Json {
    if name in data then data[name] else JNull
  }

  /**
   * The checks `record_transaction` makes before touching the database:
   * an empty body is answered "no data", a falsy location, a non-numeric
   * total or a non-integer item count "invalid format"; `None` means the
   * payload passed.
   */
  function PayloadCheck(data: Option<map<string, Json>>): (r: Option<Outcome>)
    ensures r == Some(NoData) <==> data.None? || data == Some(map[])
    ensures r.None? <==> (data.Some? && data.value != map[]
      && Truthy(Field(data.value, "location")) && IsNumber(Field(data.value, "total")) && IsInt(Field(data.value, "items")))
    ensures r.Some? ==> r.value in {NoData, InvalidFormat}
  {
    if data.None? || data.value == map[] then Some(NoData)
    else if !(Truthy(Field(data.value, "location")) && IsNumber(Field(data.value, "total")) && IsInt(Field(data.value, "items"))) then
      Some(InvalidFormat)
    else None
  }

  /**
   * The register page posts `{location_slug, items: [...]}` (a list of
   * line items, no `location`, no `total`); the route reads `location`,
   * `total` and an integer `items`, so it refuses that body as malformed.
   */
  lemma PosCheckoutBodyIsRefused(slug: string, lineItems: nat)
    ensures PayloadCheck(Some(map["location_slug" := JStr(slug), "items" := JList(lineItems)])) == Some(InvalidFormat)
  {
    var data := map["location_slug" := JStr(slug), "items" := JList(lineItems)];
    assert "location" !in data && "items" in data;
    assert data != map[];
    assert !Truthy(Field(data, "location"));
  }

  /** One line item of a recorded transaction. */
  datatype TxItem = TxItem(id: int, price: int, category: Option<int>)

  /** One recorded sale, attached to the business day it was made on. */
  datatype Transaction = Transaction(
    day: DayKey, amount: int, itemCount: int,
    cashReceived: Option<int>, changeGiven: Option<int>, items: seq<TxItem>)

  /** What a route answers. */
  datatype Outcome =
    | Done
    | AlreadyStarted       // start_day: a record for today already exists
    | InvalidOpeningCash   // start_day: opening cash missing or negative
    | NoData               // record_transaction: empty body (400)
    | InvalidFormat        // record_transaction: malformed payload (400)
    | NotFound             // no record in the status the route needs

  /** The cash denominations counted when a day is closed, largest first. */
  const Denominations: seq<int> := [1000, 500, 200, 100, 50, 10, 5, 1]

  /** The count entered for `denom`; a missing or unparsable field counts 0. */
  function CountOf(counts: map<int, int>, denom: int): int {
    if denom in counts then counts[denom] else 0
  }

  /** Total value of a cash count: the sum of count × denomination over `denoms`. */
  function CountedCash(denoms: seq<int>, counts: map<int, int>): int {
    if denoms == [] then 0
    else CountedCash(denoms[..|denoms| - 1], counts) + CountOf(counts, denoms[|denoms| - 1]) * denoms[|denoms| - 1]
  }

  /** The (denomination, count) pairs stored as the day's cash breakdown. */
  function Breakdown(denoms: seq<int>, counts: map<int, int>): (b: seq<(int, int)>)
    ensures |b| == |denoms|
    ensures forall i :: 0 <= i < |b| ==> b[i] == (denoms[i], CountOf(counts, denoms[i]))
  {
    if denoms == [] then []
    else Breakdown(denoms[..|denoms| - 1], counts) + [(denoms[|denoms| - 1], CountOf(counts, denoms[|denoms| - 1]))]
  }

  /** Sum of denomination × count over a stored breakdown. */
  function BreakdownTotal(b: seq<(int, int)>): int {
    if b == [] then 0 else BreakdownTotal(b[..|b| - 1]) + b[|b| - 1].0 * b[|b| - 1].1
  }

  /**
   * The breakdown stored by close_day adds up to the closing cash it
   * stored: recomputing the closing cash from the breakdown (as the
   * report editor does) reproduces the counted total.
   */
  lemma {:induction false} BreakdownTotalIsCountedCash(denoms: seq<int>, counts: map<int, int>)
    ensures BreakdownTotal(Breakdown(denoms, counts)) == CountedCash(denoms, counts)
  {
    if denoms != [] {
      var init := denoms[..|denoms| - 1];
      BreakdownTotalIsCountedCash(init, counts);
      var b := Breakdown(denoms, counts);
      assert b[..|b| - 1] == Breakdown(init, counts);
    }
  }

  /** With no count entered at all, the drawer holds nothing. */
  lemma {:induction false} EmptyCountIsZero(denoms: seq<int>)
    ensures CountedCash(denoms, map[]) == 0
  {
    if denoms != [] {
      EmptyCountIsZero(denoms[..|denoms| - 1]);
    }
  }

  /** A count that is never negative over positive denominations is never negative. */
  lemma {:induction false} CountedCashNonNegative(denoms: seq<int>, counts: map<int, int>)
    requires forall i :: 0 <= i < |denoms| ==> denoms[i] > 0
    requires forall d :: d in counts ==> counts[d] >= 0
    ensures CountedCash(denoms, counts) >= 0
  {
    if denoms != [] {
      CountedCashNonNegative(denoms[..|denoms| - 1], counts);
      var d := denoms[|denoms| - 1];
      assert CountOf(counts, d) >= 0 && d > 0;
    }
  }

  /** The cash a day should hold: opening float plus sales. */
  function ExpectedCash(d: BusinessDay): int {
    d.openingCash + d.totalSales
  }

  /** Counted cash minus expected cash; a missing count reads as 0. */
  function CashDifference(d: BusinessDay): int {
    d.closingCash.GetOr(0) - ExpectedCash(d)
  }

  /** The stored expected cash and cash difference agree with the day's other figures. */
  predicate Reconciled(d: BusinessDay) {
    d.expectedCash == Some(ExpectedCash(d)) && d.cashDiff == Some(CashDifference(d))
  }

  /** Number of transactions of the log recorded against day `k`. */
  function TxCount(txs: seq<Transaction>, k: DayKey): nat {
    if txs == [] then 0
    else TxCount(txs[..|txs| - 1], k) + (if txs[|txs| - 1].day == k then 1 else 0)
  }

  /** Sum of the amounts of day `k`'s transactions. */
  function SalesOf(txs: seq<Transaction>, k: DayKey): int {
    if txs == [] then 0
    else SalesOf(txs[..|txs| - 1], k) + (if txs[|txs| - 1].day == k then txs[|txs| - 1].amount else 0)
  }

  /** Sum of the item counts of day `k`'s transactions. */
  function ItemsOf(txs: seq<Transaction>, k: DayKey): int {
    if txs == [] then 0
    else ItemsOf(txs[..|txs| - 1], k) + (if txs[|txs| - 1].day == k then txs[|txs| - 1].itemCount else 0)
  }

  /** A day's counters are the totals of its transaction log. */
  predicate CountersMatchLog(txs: seq<Transaction>, k: DayKey, d: BusinessDay) {
    d.totalTransactions == TxCount(txs, k) && d.totalSales == SalesOf(txs, k) && d.totalItems == ItemsOf(txs, k)
  }

  /** Appending a transaction changes the totals of its own day only, by exactly its figures. */
  lemma LogAppend(txs: seq<Transaction>, t: Transaction, k: DayKey)
    ensures TxCount(txs + [t], k) == TxCount(txs, k) + (if t.day == k then 1 else 0)
    ensures SalesOf(txs + [t], k) == SalesOf(txs, k) + (if t.day == k then t.amount else 0)
    ensures ItemsOf(txs + [t], k) == ItemsOf(txs, k) + (if t.day == k then t.itemCount else 0)
  {
    assert (txs + [t])[..|txs|] == txs;
  }

  /** A day no transaction refers to has empty totals. */
  lemma {:induction false} LogWithoutDay(txs: seq<Transaction>, k: DayKey)
    requires forall i :: 0 <= i < |txs| ==> txs[i].day != k
    ensures TxCount(txs, k) == 0 && SalesOf(txs, k) == 0 && ItemsOf(txs, k) == 0
  {
    if txs != [] {
      LogWithoutDay(txs[..|txs| - 1], k);
    }
  }

  /** The link the dashboard shows for a location. */
  datatype Action = StartDayLink | PosLink | ReportLink | NoLink

  /**
   * The dashboard's status mapping: no record offers to start the day, an
   * open day leads to the register, a counted or closed day to its report.
   * A record still in the default NOT_STARTED status matches no branch.
   */
  function DashboardAction(day: Option<BusinessDay>): (a: Action)
    ensures day.None? <==> a == StartDayLink
    ensures a == PosLink <==> day.Some? && day.value.status == Open
    ensures a == ReportLink <==> day.Some? && day.value.status in {PendingReport, Closed}
    ensures a == NoLink <==> day.Some? && day.value.status == NotStarted
  {
    match day
    case None => StartDayLink
    case Some(d) =>
      match d.status
      case Open => PosLink
      case PendingReport => ReportLink
      case Closed => ReportLink
      case NotStarted => NoLink
  }

  /** The locations the dashboard lists, in order. */
  const DashboardLocations: seq<string> := ["本舖", "瘋衣舍", "特賣會1", "特賣會2", "其他"]

  /** Forward order of the statuses. */
  function StatusRank(s: Status): nat {
    match s
    case NotStarted => 0
    case Open => 1
    case PendingReport => 2
    case Closed => 3
  }

  /**
   * Statuses only move forward: no record disappears, none goes back in
   * the order OPEN, PENDING_REPORT, CLOSED, and a CLOSED record stays CLOSED.
   */
  ghost predicate ForwardOnly(before: map<DayKey, BusinessDay>, after: map<DayKey, BusinessDay>) {
    forall k :: k in before ==>
      && k in after
      && StatusRank(before[k].status) <= StatusRank(after[k].status)
      && (before[k].status == Closed ==> after[k].status == Closed)
  }

  /** A stored breakdown adds up to the stored closing cash. */
  predicate BreakdownMatchesClosing(d: BusinessDay) {
    d.cashBreakdown.Some? ==> d.closingCash == Some(BreakdownTotal(d.cashBreakdown.value))
  }

  /**
   * A stored day was started (never NOT_STARTED); a counted day has a
   * closing cash; a closed day is reconciled; a stored cash breakdown adds
   * up to the closing cash.
   */
  predicate DayValid(d: BusinessDay) {
    && d.status != NotStarted
    && (d.status in {PendingReport, Closed} ==> d.closingCash.Some?)
    && (d.status == Closed ==> Reconciled(d))
    && BreakdownMatchesClosing(d)
  }

  /** Every stored day is valid, every transaction belongs to a stored day, and each day's counters are its log totals. */
  ghost predicate Consistent(days: map<DayKey, BusinessDay>, txs: seq<Transaction>) {
    && (forall k :: k in days ==> DayValid(days[k]))
    && (forall i :: 0 <= i < |txs| ==> txs[i].day in days)
    && (forall k :: k in days ==> CountersMatchLog(txs, k, days[k]))
  }

  /**
   * Replacing one day by a record that keeps its status or moves it
   * forward, and whose fields satisfy the day-level conditions, keeps the
   * register consistent against a log whose totals the new days match.
   */
  lemma ReplaceDayKeepsConsistent(days: map<DayKey, BusinessDay>, txs: seq<Transaction>, txs2: seq<Transaction>, k: DayKey, d: BusinessDay)
    requires Consistent(days, txs) && k in days
    requires StatusRank(days[k].status) <= StatusRank(d.status) && (days[k].status == Closed ==> d.status == Closed)
    requires DayValid(d)
    requires forall i :: 0 <= i < |txs2| ==> txs2[i].day in days
    requires CountersMatchLog(txs2, k, d)
    requires forall k' :: k' in days && k' != k ==> CountersMatchLog(txs2, k', days[k'])
    ensures Consistent(days[k := d], txs2) && ForwardOnly(days, days[k := d])
  {
    var after := days[k := d];
    forall k' | k' in after
      ensures DayValid(after[k'])
    {
      if k' != k {
        assert after[k'] == days[k'];
      }
    }
    forall k' | k' in after
      ensures CountersMatchLog(txs2, k', after[k'])
    {
      if k' != k {
        assert after[k'] == days[k'];
      }
    }
    assert ForwardOnly(days, after);
  }

  /** Logging a transaction leaves the other days' log totals as they were. */
  lemma AppendCountersOther(days: map<DayKey, BusinessDay>, txs: seq<Transaction>, t: Transaction)
    requires forall k :: k in days ==> CountersMatchLog(txs, k, days[k])
    ensures forall k :: k in days && k != t.day ==> CountersMatchLog(txs + [t], k, days[k])
  {
    forall k | k in days && k != t.day
      ensures CountersMatchLog(txs + [t], k, days[k])
    {
      LogAppend(txs, t, k);
    }
  }

  /** Logging a transaction adds exactly its figures to its own day's log totals. */
  lemma AppendCountersOwn(txs: seq<Transaction>, t: Transaction, d: BusinessDay, d2: BusinessDay)
    requires CountersMatchLog(txs, t.day, d)
    requires d2 == WithTransaction(d, t.amount, t.itemCount)
    ensures CountersMatchLog(txs + [t], t.day, d2)
  {
    LogAppend(txs, t, t.day);
  }

  /** A day's running totals once a transaction of `amount` for `count` items is added to them. */
  function WithTransaction(d: BusinessDay, amount: int, count: int): BusinessDay {
    d.(totalSales := d.totalSales + amount, totalItems := d.totalItems + count, totalTransactions := d.totalTransactions + 1)
  }

  /** A day once its cash is counted: PENDING_REPORT, with the counted total and the breakdown stored. */
  function WithCount(d: BusinessDay, counts: map<int, int>): BusinessDay {
    d.(status := PendingReport,
       closingCash := Some(CountedCash(Denominations, counts)),
       cashBreakdown := Some(Breakdown(Denominations, counts)))
  }

  /** Counting the cash of an OPEN day keeps the register consistent and moves the day forward. */
  lemma CountKeepsConsistent(days: map<DayKey, BusinessDay>, txs: seq<Transaction>, k: DayKey, counts: map<int, int>)
    requires Consistent(days, txs) && k in days && days[k].status == Open
    ensures Consistent(days[k := WithCount(days[k], counts)], txs) && ForwardOnly(days, days[k := WithCount(days[k], counts)])
  {
    var d2 := WithCount(days[k], counts);
    BreakdownTotalIsCountedCash(Denominations, counts);
    assert DayValid(d2);
    assert CountersMatchLog(txs, k, d2);
    ReplaceDayKeepsConsistent(days, txs, txs, k, d2);
  }

  /** Logging a transaction on an OPEN day and adding its figures to that day keeps the register consistent. */
  lemma RecordKeepsConsistent(days: map<DayKey, BusinessDay>, txs: seq<Transaction>, t: Transaction, d2: BusinessDay)
    requires Consistent(days, txs) && t.day in days && days[t.day].status == Open
    requires d2 == WithTransaction(days[t.day], t.amount, t.itemCount)
    ensures Consistent(days[t.day := d2], txs + [t]) && ForwardOnly(days, days[t.day := d2])
  {
    AppendCountersOther(days, txs, t);
    AppendCountersOwn(txs, t, days[t.day], d2);
    assert forall i :: 0 <= i < |txs + [t]| ==> (txs + [t])[i].day in days;
    ReplaceDayKeepsConsistent(days, txs, txs + [t], t.day, d2);
  }

  /** The day records of all locations, and the transaction log. */
  class Register {
    var days: map<DayKey, BusinessDay>
    var txs: seq<Transaction>

    ghost predicate Valid()
      reads this
    {
      Consistent(days, txs)
    }

    constructor ()
      ensures Valid() && days == map[] && txs == []
    {
      days := map[];
      txs := [];
    }

    /** The record of `location` for `today`, whatever its status. */
    function Find(today: int, location: string): Option<BusinessDay>
      reads this
    {
      var k := DayKey(today, location);
      if k in days then Some(days[k]) else None
    }

    /** `dashboard`: today's link for each listed location; none is left without one. */
    method Dashboard(today: int) returns (statuses: map<string, Action>)
      requires Valid()
      ensures statuses.Keys == set l | l in DashboardLocations
      ensures forall l :: l in statuses ==> statuses[l] == DashboardAction(Find(today, l)) && statuses[l] != NoLink
    {
      statuses := map[];
      var i := 0;
      while i < |DashboardLocations|
        invariant 0 <= i <= |DashboardLocations|
        invariant statuses.Keys == set l | l in DashboardLocations[..i]
        invariant forall l :: l in statuses ==> statuses[l] == DashboardAction(Find(today, l)) && statuses[l] != NoLink
      {
        var l := DashboardLocations[i];
        DashboardAlwaysLinks(this, today, l);
        assert DashboardLocations[..i + 1] == DashboardLocations[..i] + [l];
        statuses := statuses[l := DashboardAction(Find(today, l))];
        i := i + 1;
      }
      assert DashboardLocations[..i] == DashboardLocations;
    }

    /**
     * `start_day` (POST): refused when today's record already exists, in
     * any status; a missing or negative opening cash is rejected; otherwise
     * a new OPEN day with that opening cash is created.
     */
    method StartDay(today: int, location: string, openingCash: Option<int>, notes: Option<string>) returns (r: Outcome)
      requires Valid()
      modifies this
      ensures Valid() && ForwardOnly(old(days), days)
      ensures txs == old(txs)
      ensures DayKey(today, location) in old(days) ==> r == AlreadyStarted && days == old(days)
      ensures DayKey(today, location) !in old(days) && (openingCash.None? || openingCash.value < 0) ==>
        r == InvalidOpeningCash && days == old(days)
      ensures DayKey(today, location) !in old(days) && openingCash.Some? && openingCash.value >= 0 ==>
        r == Done && days == old(days)[DayKey(today, location) := NewBusinessDay(openingCash.value, notes).(status := Open)]
    {
      var k := DayKey(today, location);
      if k in days {
        return AlreadyStarted;
      }
      if openingCash.None? || openingCash.value < 0 {
        return InvalidOpeningCash;
      }
      LogWithoutDay(txs, k);
      days := days[k := NewBusinessDay(openingCash.value, notes).(status := Open)];
      r := Done;
    }

    /** `pos`: the running totals the register page starts from, only for an OPEN day. */
    function PosTotals(today: int, location: string): (totals: Option<(int, int, int)>)
      reads this
      ensures totals.Some? <==> Find(today, location).Some? && Find(today, location).value.status == Open
      ensures totals.Some? ==> var d := Find(today, location).value;
        totals.value == (d.totalSales, d.totalItems, d.totalTransactions)
    {
      match Find(today, location)
      case Some(d) => if d.status == Open then Some((d.totalSales, d.totalItems, d.totalTransactions)) else None
      case None => None
    }

    /**
     * `record_transaction`: an empty body, or a payload whose location is
     * falsy, whose total is not a number or whose item count is not an
     * integer, is rejected before anything changes; without an OPEN day
     * for the location the answer is "not found". Otherwise the total is
     * added to the sales, the item count to the items, the transaction
     * count grows by exactly one and the transaction is logged.
     */
    method RecordTransaction(today: int, data: Option<map<string, Json>>) returns (r: Outcome)
      requires Valid()
      modifies this
      ensures Valid() && ForwardOnly(old(days), days)
      ensures PayloadCheck(data).Some? ==> r == PayloadCheck(data).value
      ensures PayloadCheck(data).None? && r != Done ==> r == NotFound
      ensures r != Done ==> days == old(days) && txs == old(txs)
      ensures r == Done <==>
        data.Some? && data.value != map[]
        && Truthy(Field(data.value, "location")) && IsNumber(Field(data.value, "total")) && IsInt(Field(data.value, "items"))
        && Field(data.value, "location").JStr?
        && DayKey(today, Field(data.value, "location").s) in old(days)
        && old(days)[DayKey(today, Field(data.value, "location").s)].status == Open
      ensures r == Done ==>
        var k := DayKey(today, Field(data.value, "location").s);
        var total := NumValue(Field(data.value, "total"));
        var count := NumValue(Field(data.value, "items"));
        && days == old(days)[k := WithTransaction(old(days)[k], total, count)]
        && txs == old(txs) + [Transaction(k, total, count, None, None, [])]
    {
      var rejected := PayloadCheck(data);
      if rejected.Some? {
        return rejected.value;
      }
      var location := Field(data.value, "location");
      var total := Field(data.value, "total");
      var items := Field(data.value, "items");
      if !location.JStr? {
        return NotFound;
      }
      var k := DayKey(today, location.s);
      if k !in days || days[k].status != Open {
        return NotFound;
      }
      var t := Transaction(k, NumValue(total), NumValue(items), None, None, []);
      var d2 := WithTransaction(days[k], t.amount, t.itemCount);
      RecordKeepsConsistent(days, txs, t, d2);
      days := days[k := d2];
      txs := txs + [t];
      r := Done;
    }

    /**
     * `close_day` (POST): only for an OPEN day. Adds up count × denomination
     * over the eight denominations (a missing count is 0), stores that as
     * the closing cash together with the breakdown, and moves the day to
     * PENDING_REPORT.
     */
    method CloseDay(today: int, location: string, counts: map<int, int>) returns (r: Outcome)
      requires Valid()
      modifies this
      ensures Valid() && ForwardOnly(old(days), days)
      ensures txs == old(txs)
      ensures var k := DayKey(today, location);
        if k in old(days) && old(days)[k].status == Open then
          r == Done && days == old(days)[k := WithCount(old(days)[k], counts)]
        else r == NotFound && days == old(days)
    {
      var k := DayKey(today, location);
      if k !in days || days[k].status != Open {
        return NotFound;
      }
      var total, breakdown := CountCash(counts);
      var d2 := days[k].(status := PendingReport, closingCash := Some(total), cashBreakdown := Some(breakdown));
      CountKeepsConsistent(days, txs, k, counts);
      days := days[k := d2];
      r := Done;
    }

    /** `close_day`'s loop over the eight denominations: the counted total and the stored breakdown. */
    static method CountCash(counts: map<int, int>) returns (total: int, breakdown: seq<(int, int)>)
      ensures total == CountedCash(Denominations, counts) && breakdown == Breakdown(Denominations, counts)
      ensures total == BreakdownTotal(breakdown)
    {
      total := 0;
      breakdown := [];
      var i := 0;
      while i < |Denominations|
        invariant 0 <= i <= |Denominations|
        invariant total == CountedCash(Denominations[..i], counts)
        invariant breakdown == Breakdown(Denominations[..i], counts)
      {
        var denom := Denominations[i];
        var count := CountOf(counts, denom);
        assert Denominations[..i + 1][..i] == Denominations[..i];
        total := total + count * denom;
        breakdown := breakdown + [(denom, count)];
        i := i + 1;
      }
      assert Denominations[..i] == Denominations;
      BreakdownTotalIsCountedCash(Denominations, counts);
    }

    /**
     * `daily_report`: shown only for a PENDING_REPORT or CLOSED day, with
     * the expected cash (opening + sales) and the difference (counted −
     * expected, a missing count reading as 0).
     */
    function DailyReport(today: int, location: string): (report: Option<(int, int)>)
      reads this
      ensures report.Some? <==> Find(today, location).Some? && Find(today, location).value.status in {PendingReport, Closed}
      ensures report.Some? ==> var d := Find(today, location).value;
        report.value.1 == d.closingCash.GetOr(0) - report.value.0
        && report.value.0 - d.totalSales == d.openingCash
    {
      match Find(today, location)
      case Some(d) => if d.status in {PendingReport, Closed} then Some((ExpectedCash(d), CashDifference(d))) else None
      case None => None
    }

    /**
     * `confirm_report`: only from PENDING_REPORT. Closes the day and fixes
     * expected cash = opening + sales and cash difference = counted −
     * expected.
     */
    method ConfirmReport(today: int, location: string) returns (r: Outcome)
      requires Valid()
      modifies this
      ensures Valid() && ForwardOnly(old(days), days)
      ensures txs == old(txs)
      ensures var k := DayKey(today, location);
        if k in old(days) && old(days)[k].status == PendingReport then
          var d := old(days)[k];
          r == Done && days == old(days)[k := d.(
            status := Closed,
            expectedCash := Some(d.openingCash + d.totalSales),
            cashDiff := Some(d.closingCash.GetOr(0) - (d.openingCash + d.totalSales)))]
        else r == NotFound && days == old(days)
    {
      var k := DayKey(today, location);
      if k !in days || days[k].status != PendingReport {
        return NotFound;
      }
      var d := days[k];
      var expected := d.openingCash + d.totalSales;
      var d2 := d.(status := Closed, expectedCash := Some(expected), cashDiff := Some(d.closingCash.GetOr(0) - expected));
      assert CountersMatchLog(txs, k, d2);
      ReplaceDayKeepsConsistent(days, txs, txs, k, d2);
      days := days[k := d2];
      r := Done;
    }
  }

  /** On the dashboard every location of a consistent register gets a link: no stored record is NOT_STARTED. */
  lemma DashboardAlwaysLinks(reg: Register, today: int, location: string)
    requires reg.Valid()
    ensures DashboardAction(reg.Find(today, location)) != NoLink
  {
  }
}
