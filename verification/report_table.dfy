/**
 * The editable report table of the report page, with the page abstracted
 * into rows of cells. A row updater recomputes a row's derived cells from
 * its inputs as they are typed. The Edit button records every editable
 * value in a snapshot, and Cancel writes the snapshot back. A toggle shows
 * the buttons of each mode.
 */
module ReportTable {
  import opened Wrappers
  import opened Text
  import opened ReportFormat
  import Models
  import Cashier
  import ReportEdits

  /** What the script recognises an editable cell by. */
  datatype CellKind =
    | FieldCell(field: string)                    // a cell with a `data-field`
    | BreakdownCell(field: string, denom: string) // a cash-breakdown cell: its field and its input's `data-denom`
    | ItemCell(itemId: string)                    // a transaction-log item cell (`data-item-id`)
    | PlainCell

  /** An editable cell: the text of its display element and the value of its input. */
  datatype EditCell = EditCell(kind: CellKind, display: string, input: string)

  /**
   * A data row (`tr[data-id]`): its editable cells in page order, the text
   * of its computed cells by name, and whether the difference cell is red.
   */
  datatype Row = Row(id: string, cells: seq<EditCell>, texts: map<string, string>, diffRed: bool)

  datatype ReportType = DailySummary | DailyCashSummary | TransactionLog | DailyCashCheck | OtherReport

  datatype Button = EditButton | SaveButton | CancelButton

  function FieldOf(k: CellKind): string {
    match k
    case FieldCell(f) => f
    case BreakdownCell(f, _) => f
    case _ => ""
  }

  /** The input of the first cell whose `data-field` is `f`. */
  function InputOf(cells: seq<EditCell>, f: string): Option<string> {
    if cells == [] then None
    else if FieldOf(cells[0].kind) == f then Some(cells[0].input)
    else InputOf(cells[1..], f)
  }

  /** `getNumericValue` of a computed cell: 0 when the row has no such cell. */
  function CellNumber(r: Row, key: string): int {
    if key in r.texts then TextValue(r.texts[key]) else 0
  }

  /** The writes of an updater: the same computed cells, the ones outside `keys` unchanged. */
  predicate TextsAgreeExcept(before: map<string, string>, after: map<string, string>, keys: set<string>) {
    after.Keys == before.Keys && forall k :: k in before && k !in keys ==> after[k] == before[k]
  }

  // ----- daily summary -----

  predicate SummaryUpdatable(r: Row) {
    InputOf(r.cells, "opening_cash").Some? && "expected_cash" in r.texts && "cash_diff" in r.texts
  }

  /** Opening cash (typed) plus the day's sales. */
  function SummaryExpected(r: Row): int
    requires InputOf(r.cells, "opening_cash").Some?
  {
    TextValue(InputOf(r.cells, "opening_cash").value) + CellNumber(r, "total_sales")
  }

  /** Closing cash minus expected cash. */
  function SummaryDiff(r: Row): int
    requires InputOf(r.cells, "opening_cash").Some?
  {
    CellNumber(r, "closing_cash") - SummaryExpected(r)
  }

  /** Expected cash and difference show what the row's opening cash, sales and closing cash give; the difference is red iff negative. */
  predicate SummaryCurrent(r: Row) {
    SummaryUpdatable(r)
    && r.texts["expected_cash"] == FormatCurrency(SummaryExpected(r)) && r.texts["cash_diff"] == FormatCurrency(SummaryDiff(r))
    && (r.diffRed <==> SummaryDiff(r) < 0)
  }

  /** Writing the expected cash alone touches no computed cell but the two the updater owns. */
  lemma ExpectedWritten(r: Row, r2: Row, expected: int)
    requires "expected_cash" in r.texts
    requires r2 == r.(texts := r.texts["expected_cash" := FormatCurrency(expected)])
    ensures TextsAgreeExcept(r.texts, r2.texts, {"expected_cash", "cash_diff"})
    ensures "cash_diff" in r2.texts ==> r2.texts["cash_diff"] == r.texts["cash_diff"]
  {
  }

  /** Writing the expected cash, then the difference and its colour, makes an updatable row current. */
  lemma SummaryWritten(r: Row, r2: Row, expected: int, diff: int)
    requires SummaryUpdatable(r)
    requires expected == TextValue(InputOf(r.cells, "opening_cash").value) + CellNumber(r, "total_sales")
    requires diff == CellNumber(r, "closing_cash") - expected
    requires r2 == r.(texts := r.texts["expected_cash" := FormatCurrency(expected)]["cash_diff" := FormatCurrency(diff)], diffRed := diff < 0)
    ensures SummaryCurrent(r2)
    ensures TextsAgreeExcept(r.texts, r2.texts, {"expected_cash", "cash_diff"})
  {
    assert CellNumber(r2, "total_sales") == CellNumber(r, "total_sales");
    assert CellNumber(r2, "closing_cash") == CellNumber(r, "closing_cash");
    assert SummaryExpected(r2) == expected;
    assert SummaryDiff(r2) == diff;
  }

  /** The expected cash and difference cells of a current row read back as the numbers they were written from. */
  lemma SummaryReadsBack(r: Row)
    requires SummaryCurrent(r)
    ensures TextValue(r.texts["expected_cash"]) == SummaryExpected(r)
    ensures TextValue(r.texts["cash_diff"]) == SummaryDiff(r)
  {
    ShownReadsBack(r.texts["expected_cash"], SummaryExpected(r));
    ShownReadsBack(r.texts["cash_diff"], SummaryDiff(r));
  }

  lemma ShownReadsBack(s: string, n: int)
    requires s == FormatCurrency(n)
    ensures TextValue(s) == n
  {
    CurrencyReadsBack(n);
  }

  /** A row showing a business day's opening cash and sales expects the server's expected cash. */
  lemma SummaryExpectedOfDay(r: Row, d: Models.BusinessDay)
    requires InputOf(r.cells, "opening_cash") == Some(IntToString(d.openingCash))
    requires "total_sales" in r.texts && r.texts["total_sales"] == FormatCurrency(d.totalSales)
    ensures SummaryExpected(r) == Cashier.ExpectedCash(d)
  {
    PlainReadsBack(d.openingCash);
    CurrencyReadsBack(d.totalSales);
  }

  /** A daily-summary row showing a business day computes the server's expected cash and cash difference. */
  lemma SummaryRowMatchesServer(r: Row, d: Models.BusinessDay)
    requires SummaryCurrent(r)
    requires InputOf(r.cells, "opening_cash") == Some(IntToString(d.openingCash))
    requires "total_sales" in r.texts && r.texts["total_sales"] == FormatCurrency(d.totalSales)
    requires "closing_cash" in r.texts && r.texts["closing_cash"] == FormatCurrency(d.closingCash.GetOr(0))
    ensures TextValue(r.texts["expected_cash"]) == Cashier.ExpectedCash(d)
    ensures TextValue(r.texts["cash_diff"]) == Cashier.CashDifference(d)
    ensures r.diffRed <==> Cashier.CashDifference(d) < 0
  {
    SummaryReadsBack(r);
    SummaryExpectedOfDay(r, d);
    CurrencyReadsBack(d.closingCash.GetOr(0));
  }

  // ----- daily cash summary -----

  predicate CashSummaryUpdatable(r: Row) {
    InputOf(r.cells, "donation_total").Some? && InputOf(r.cells, "other_total").Some? && "other_cash" in r.texts
  }

  /** Donations plus other income, as typed. */
  function OtherCash(cells: seq<EditCell>): int
    requires InputOf(cells, "donation_total").Some? && InputOf(cells, "other_total").Some?
  {
    TextValue(InputOf(cells, "donation_total").value) + TextValue(InputOf(cells, "other_total").value)
  }

  /** The other-cash cell shows donations plus other income. */
  predicate CashSummaryCurrent(r: Row) {
    CashSummaryUpdatable(r) && r.texts["other_cash"] == LabelledNumber(OtherCash(r.cells))
  }

  /** Writing the other-cash cell makes an updatable row current and touches no other computed cell. */
  lemma OtherCashWritten(r: Row, r2: Row, total: int)
    requires CashSummaryUpdatable(r)
    requires total == TextValue(InputOf(r.cells, "donation_total").value) + TextValue(InputOf(r.cells, "other_total").value)
    requires r2 == r.(texts := r.texts["other_cash" := LabelledNumber(total)])
    ensures CashSummaryCurrent(r2)
    ensures TextsAgreeExcept(r.texts, r2.texts, {"other_cash"})
  {
    assert OtherCash(r2.cells) == total;
  }

  lemma CashSummaryReadsBack(r: Row)
    requires CashSummaryCurrent(r)
    ensures TextValue(r.texts["other_cash"])
      == TextValue(InputOf(r.cells, "donation_total").value) + TextValue(InputOf(r.cells, "other_total").value)
  {
    LabelledReadsBack(OtherCash(r.cells));
  }

  // ----- transaction log -----

  /** The inputs of the item cells, in page order. */
  function ItemInputs(cells: seq<EditCell>): seq<string> {
    if cells == [] then []
    else
      var last := cells[|cells| - 1];
      ItemInputs(cells[..|cells| - 1]) + (if last.kind.ItemCell? then [last.input] else [])
  }

  function NumSum(texts: seq<string>): int {
    if texts == [] then 0 else NumSum(texts[..|texts| - 1]) + TextValue(texts[|texts| - 1])
  }

  predicate LogUpdatable(r: Row) {
    "amount" in r.texts && InputOf(r.cells, "cash_received").Some? && "change_given" in r.texts
  }

  /** The sum of the item inputs. */
  function LogAmount(cells: seq<EditCell>): int {
    NumSum(ItemInputs(cells))
  }

  /** Cash received minus the amount. */
  function LogChange(cells: seq<EditCell>): int
    requires InputOf(cells, "cash_received").Some?
  {
    TextValue(InputOf(cells, "cash_received").value) - LogAmount(cells)
  }

  /** The amount is the sum of the item inputs and the change is cash received minus the amount. */
  predicate LogCurrent(r: Row) {
    LogUpdatable(r)
    && r.texts["amount"] == FormatCurrency(LogAmount(r.cells))
    && r.texts["change_given"] == FormatCurrency(LogChange(r.cells))
  }

  /** Writing the amount alone touches no computed cell but the amount, and the amount cell shows the sum of the items. */
  lemma AmountWritten(r: Row, r2: Row, amount: int)
    requires "amount" in r.texts && amount == NumSum(ItemInputs(r.cells))
    requires r2 == r.(texts := r.texts["amount" := FormatCurrency(amount)])
    ensures TextsAgreeExcept(r.texts, r2.texts, {"amount", "change_given"})
    ensures r2.texts["amount"] == FormatCurrency(LogAmount(r2.cells))
    ensures "change_given" in r2.texts ==> r2.texts["change_given"] == r.texts["change_given"]
  {
  }

  /** Writing the amount and then the change makes an updatable row current and touches no other computed cell. */
  lemma LogWritten(r: Row, r2: Row, amount: int, change: int)
    requires LogUpdatable(r) && amount == NumSum(ItemInputs(r.cells))
    requires change == TextValue(InputOf(r.cells, "cash_received").value) - amount
    requires r2 == r.(texts := r.texts["amount" := FormatCurrency(amount)]["change_given" := FormatCurrency(change)])
    ensures LogCurrent(r2)
    ensures TextsAgreeExcept(r.texts, r2.texts, {"amount", "change_given"})
  {
    assert LogChange(r2.cells) == change;
  }

  /** Prices written into inputs as plain numbers. */
  predicate ShowsPrices(texts: seq<string>, items: seq<Cashier.TxItem>) {
    |texts| == |items| && forall k :: 0 <= k < |items| ==> texts[k] == IntToString(items[k].price)
  }

  lemma {:induction false} NumSumOfPrices(texts: seq<string>, items: seq<Cashier.TxItem>)
    requires ShowsPrices(texts, items)
    ensures NumSum(texts) == ReportEdits.ItemTotal(items)
  {
    if items != [] {
      NumSumOfPrices(texts[..|texts| - 1], items[..|items| - 1]);
      PlainReadsBack(items[|items| - 1].price);
    }
  }

  /** A transaction-log row showing a transaction's items and cash computes the server's amount and change. */
  lemma LogRowMatchesServer(r: Row, items: seq<Cashier.TxItem>, cash: int)
    requires LogCurrent(r)
    requires ShowsPrices(ItemInputs(r.cells), items)
    requires InputOf(r.cells, "cash_received") == Some(IntToString(cash))
    ensures TextValue(r.texts["amount"]) == ReportEdits.ItemTotal(items)
    ensures TextValue(r.texts["change_given"]) == cash - ReportEdits.ItemTotal(items)
  {
    LogReadsBack(r);
    NumSumOfPrices(ItemInputs(r.cells), items);
    PlainReadsBack(cash);
  }

  /** The amount and change cells of a current row read back as the numbers they were written from. */
  lemma LogReadsBack(r: Row)
    requires LogCurrent(r)
    ensures TextValue(r.texts["amount"]) == LogAmount(r.cells)
    ensures TextValue(r.texts["change_given"]) == LogChange(r.cells)
  {
    ShownReadsBack(r.texts["amount"], LogAmount(r.cells));
    ShownReadsBack(r.texts["change_given"], LogChange(r.cells));
  }

  // ----- daily cash check -----

  /** The (denomination, count) texts of the breakdown cells, in page order. */
  function BreakdownPairs(cells: seq<EditCell>): seq<(string, string)> {
    if cells == [] then []
    else
      var last := cells[|cells| - 1];
      BreakdownPairs(cells[..|cells| - 1]) + (if last.kind.BreakdownCell? then [(last.kind.denom, last.input)] else [])
  }

  /** Sum of denomination × count. */
  function PairsValue(p: seq<(string, string)>): int {
    if p == [] then 0 else PairsValue(p[..|p| - 1]) + TextValue(p[|p| - 1].0) * TextValue(p[|p| - 1].1)
  }

  /** The counts entered for denomination `d`. */
  function DenomCount(p: seq<(string, string)>, d: string): int {
    if p == [] then 0 else DenomCount(p[..|p| - 1], d) + (if p[|p| - 1].0 == d then TextValue(p[|p| - 1].1) else 0)
  }

  /** The counts entered for denomination `d` over all rows. */
  function DenomTotal(rows: seq<Row>, d: string): int {
    if rows == [] then 0 else DenomTotal(rows[..|rows| - 1], d) + DenomCount(BreakdownPairs(rows[|rows| - 1].cells), d)
  }

  /** The denominations the breakdown cells carry. */
  function DenomsOf(cells: seq<EditCell>): set<string> {
    if cells == [] then {}
    else
      var last := cells[|cells| - 1];
      DenomsOf(cells[..|cells| - 1]) + (if last.kind.BreakdownCell? then {last.kind.denom} else {})
  }

  function TableDenoms(rows: seq<Row>): set<string> {
    if rows == [] then {} else TableDenoms(rows[..|rows| - 1]) + DenomsOf(rows[|rows| - 1].cells)
  }

  /** Sum of the numbers the rows' closing-cash cells show (a missing cell counts 0). */
  function DisplayedClosings(rows: seq<Row>): int {
    if rows == [] then 0 else DisplayedClosings(rows[..|rows| - 1]) + CellNumber(rows[|rows| - 1], "closing_cash_display")
  }

  /** Sum of the rows' counted cash. */
  function ClosingSum(rows: seq<Row>): int {
    if rows == [] then 0 else ClosingSum(rows[..|rows| - 1]) + PairsValue(BreakdownPairs(rows[|rows| - 1].cells))
  }

  /**
   * The grand-total row's denomination cells after a recount: each
   * denomination that has a cell and occurs in the table shows its total
   * count, and every other cell keeps its text.
   */
  predicate DenomTotalsShown(before: map<string, string>, after: map<string, string>, cells: set<string>, rows: seq<Row>) {
    TotalsFor(before, after, cells, rows, TableDenoms(rows))
  }

  /** The recount has reached the denominations in `done`: those with a cell show their total, every other cell keeps its text. */
  predicate TotalsFor(before: map<string, string>, after: map<string, string>, cells: set<string>, rows: seq<Row>, done: set<string>) {
    (forall d :: d in cells && d in done ==> d in after && after[d] == FormatNumber(DenomTotal(rows, d)))
    && (forall d :: d in before && !(d in cells && d in done) ==> d in after && after[d] == before[d])
    && (forall d :: d in after ==> d in before || (d in cells && d in done))
  }

  /** Recounting one more denomination. */
  lemma TotalsStep(before: map<string, string>, after: map<string, string>, cells: set<string>, rows: seq<Row>, done: set<string>, d: string)
    requires TotalsFor(before, after, cells, rows, done)
    ensures TotalsFor(before, if d in cells then after[d := FormatNumber(DenomTotal(rows, d))] else after, cells, rows, done + {d})
  {
  }

  lemma DenomsOfStep(cells: seq<EditCell>, b: nat)
    requires b < |cells|
    ensures DenomsOf(cells[..b + 1]) == DenomsOf(cells[..b]) + (if cells[b].kind.BreakdownCell? then {cells[b].kind.denom} else {})
  {
    assert cells[..b + 1][..b] == cells[..b];
  }

  lemma TableDenomsStep(rows: seq<Row>, a: nat)
    requires a < |rows|
    ensures TableDenoms(rows[..a + 1]) == TableDenoms(rows[..a]) + DenomsOf(rows[a].cells)
  {
    assert rows[..a + 1][..a] == rows[..a];
  }

  /** The row's closing-cash cell, where it has one, shows the counted cash. */
  predicate CashCheckCurrent(r: Row) {
    "closing_cash_display" in r.texts ==> r.texts["closing_cash_display"] == LabelledNumber(PairsValue(BreakdownPairs(r.cells)))
  }

  /** Writing the closing-cash cell makes the row current and touches no other computed cell. */
  lemma ClosingWritten(r: Row, r2: Row, closing: int)
    requires "closing_cash_display" in r.texts && closing == PairsValue(BreakdownPairs(r.cells))
    requires r2 == r.(texts := r.texts["closing_cash_display" := LabelledNumber(closing)])
    ensures CashCheckCurrent(r2)
    ensures TextsAgreeExcept(r.texts, r2.texts, {"closing_cash_display"})
  {
  }

  /** A breakdown written into inputs as plain numbers. */
  predicate ShowsBreakdown(p: seq<(string, string)>, b: seq<(int, int)>) {
    |p| == |b| && forall k :: 0 <= k < |b| ==> p[k] == (IntToString(b[k].0), IntToString(b[k].1))
  }

  lemma {:induction false} PairsValueOf(p: seq<(string, string)>, b: seq<(int, int)>)
    requires ShowsBreakdown(p, b)
    ensures PairsValue(p) == Cashier.BreakdownTotal(b)
  {
    if b != [] {
      PairsValueOf(p[..|p| - 1], b[..|b| - 1]);
      PlainReadsBack(b[|b| - 1].0);
      PlainReadsBack(b[|b| - 1].1);
    }
  }

  /** A cash-check row showing a stored breakdown computes the closing cash the server recomputes from it. */
  lemma CashCheckRowMatchesServer(r: Row, b: seq<(int, int)>)
    requires CashCheckCurrent(r) && "closing_cash_display" in r.texts
    requires ShowsBreakdown(BreakdownPairs(r.cells), b)
    ensures TextValue(r.texts["closing_cash_display"]) == Cashier.BreakdownTotal(b)
  {
    PairsValueOf(BreakdownPairs(r.cells), b);
    LabelledReadsBack(Cashier.BreakdownTotal(b));
  }

  /** When every row's closing cell is current, the grand total read from them is the sum of the rows' counted cash. */
  lemma {:induction false} GrandClosingIsSumOfRows(rows: seq<Row>)
    requires forall i :: 0 <= i < |rows| ==> "closing_cash_display" in rows[i].texts && CashCheckCurrent(rows[i])
    ensures DisplayedClosings(rows) == ClosingSum(rows)
  {
    if rows != [] {
      GrandClosingIsSumOfRows(rows[..|rows| - 1]);
      LabelledReadsBack(PairsValue(BreakdownPairs(rows[|rows| - 1].cells)));
    }
  }

  // ----- edit snapshot -----

  /** A value of a row's snapshot object: a number, or a nested object keyed by denomination or item id. */
  datatype SnapValue = Num(n: int) | Group(g: map<string, int>)

  type RowSnap = map<string, SnapValue>

  /** The number Edit reads from a cell's display. */
  function CellValue(c: EditCell): int { TextValue(c.display) }

  /** `originalData[rowId][key]` is truthy: a non-zero number or an object. */
  predicate SnapTruthy(s: RowSnap, key: string) { key in s && (s[key].Group? || s[key].n != 0) }

  /** Stores `v` under `sub` in the nested object `key`, creating it when it is missing or falsy; storing into a number does nothing. */
  function AddToGroup(s: RowSnap, key: string, sub: string, v: int): RowSnap {
    if !SnapTruthy(s, key) then s[key := Group(map[sub := v])]
    else if s[key].Group? then s[key := Group(s[key].g[sub := v])]
    else s
  }

  datatype CellKey = FieldKey(f: string) | DenomKey(d: string) | ItemKey(id: string) | NoKey

  /** Where Edit files a cell's value; NoKey for a cell it skips. */
  function KeyOf(c: EditCell): CellKey {
    match c.kind
    case FieldCell(f) => if f != "" then FieldKey(f) else NoKey
    case BreakdownCell(f, d) => if f != "" then DenomKey(d) else NoKey
    case ItemCell(id) => if id != "" then ItemKey(id) else NoKey
    case PlainCell => NoKey
  }

  predicate Captured(c: EditCell) { KeyOf(c) != NoKey }

  /** Edit's record of one cell in its row's snapshot. */
  function CaptureCell(s: RowSnap, c: EditCell): RowSnap {
    match KeyOf(c)
    case FieldKey(f) => s[f := Num(CellValue(c))]
    case DenomKey(d) => AddToGroup(s, "cash_breakdown", d, CellValue(c))
    case ItemKey(id) => AddToGroup(s, "items", id, CellValue(c))
    case NoKey => s
  }

  /** Edit writes the number it read into the cell's input. */
  function PrimeCell(c: EditCell): (r: EditCell)
    ensures r.kind == c.kind && r.display == c.display
  {
    if Captured(c) then c.(input := IntToString(CellValue(c))) else c
  }

  /** The input Edit writes reads back as the number it read from the display. */
  lemma PrimedReadsBack(c: EditCell)
    requires Captured(c)
    ensures TextValue(PrimeCell(c).input) == CellValue(c)
  {
    PlainReadsBack(CellValue(c));
  }

  function RowSnapOf(cells: seq<EditCell>): RowSnap {
    if cells == [] then map[] else CaptureCell(RowSnapOf(cells[..|cells| - 1]), cells[|cells| - 1])
  }

  /** Edit's `originalData`: one snapshot per row id (a later row with the same id replaces an earlier one). */
  function SnapshotOf(rows: seq<Row>): map<string, RowSnap> {
    if rows == [] then map[] else SnapshotOf(rows[..|rows| - 1])[rows[|rows| - 1].id := RowSnapOf(rows[|rows| - 1].cells)]
  }

  /** Cancel's restoration of one cell from its row's snapshot. */
  function RestoreCell(c: EditCell, s: RowSnap): (r: EditCell)
    ensures r.kind == c.kind
  {
    var f := FieldOf(c.kind);
    if f != "" && f in s then
      match s[f]
      case Num(v) => c.(display := FormatCurrency(v), input := IntToString(v))
      case Group(_) => c.(display := "$NaN", input := "[object Object]")
    else if c.kind.BreakdownCell? && SnapTruthy(s, "cash_breakdown") then
      if s["cash_breakdown"].Group? && c.kind.denom in s["cash_breakdown"].g then
        var v := s["cash_breakdown"].g[c.kind.denom];
        c.(display := IntToString(v), input := IntToString(v))
      else c
    else if c.kind.ItemCell? && c.kind.itemId != "" && SnapTruthy(s, "items") then
      if s["items"].Group? && c.kind.itemId in s["items"].g then
        var v := s["items"].g[c.kind.itemId];
        c.(display := FormatCurrency(v), input := IntToString(v))
      else c
    else c
  }

  /** Cancel's restoration of a row: every cell from the row's snapshot, when there is one. */
  function RestoreRow(r: Row, data: map<string, RowSnap>): Row {
    if r.id in data then r.(cells := RestoreCells(r.cells, data[r.id])) else r
  }

  function RestoreCells(cells: seq<EditCell>, s: RowSnap): (r: seq<EditCell>)
    ensures |r| == |cells|
  {
    if cells == [] then [] else RestoreCells(cells[..|cells| - 1], s) + [RestoreCell(cells[|cells| - 1], s)]
  }

  function RestoreAll(rows: seq<Row>, data: map<string, RowSnap>): (r: seq<Row>)
    ensures |r| == |rows|
  {
    if rows == [] then [] else RestoreAll(rows[..|rows| - 1], data) + [RestoreRow(rows[|rows| - 1], data)]
  }

  lemma RestoreCellsStep(cells: seq<EditCell>, s: RowSnap, j: nat)
    requires j < |cells|
    ensures RestoreCells(cells[..j + 1], s) == RestoreCells(cells[..j], s) + [RestoreCell(cells[j], s)]
  {
    assert cells[..j + 1][..j] == cells[..j];
  }

  lemma RestoreAllStep(rows: seq<Row>, data: map<string, RowSnap>, i: nat)
    requires i < |rows|
    ensures RestoreAll(rows[..i + 1], data) == RestoreAll(rows[..i], data) + [RestoreRow(rows[i], data)]
  {
    assert rows[..i + 1][..i] == rows[..i];
  }

  /** Restoring works cell by cell. */
  lemma {:induction false} RestoreCellsAt(cells: seq<EditCell>, s: RowSnap, j: nat)
    requires j < |cells|
    ensures RestoreCells(cells, s)[j] == RestoreCell(cells[j], s)
  {
    if j < |cells| - 1 {
      RestoreCellsAt(cells[..|cells| - 1], s, j);
    }
  }

  /** Restoring works row by row, and keeps every row's id. */
  lemma {:induction false} RestoreAllAt(rows: seq<Row>, data: map<string, RowSnap>, i: nat)
    requires i < |rows|
    ensures RestoreAll(rows, data)[i] == RestoreRow(rows[i], data)
  {
    if i < |rows| - 1 {
      RestoreAllAt(rows[..|rows| - 1], data, i);
    }
  }

  /** A row after Edit has written the numbers it read into the inputs. */
  function Primed(r: Row): Row {
    r.(cells := PrimeCells(r.cells))
  }

  function PrimeCells(cells: seq<EditCell>): (r: seq<EditCell>)
    ensures |r| == |cells|
  {
    if cells == [] then [] else PrimeCells(cells[..|cells| - 1]) + [PrimeCell(cells[|cells| - 1])]
  }

  lemma RowSnapStep(cells: seq<EditCell>, j: nat)
    requires j < |cells|
    ensures RowSnapOf(cells[..j + 1]) == CaptureCell(RowSnapOf(cells[..j]), cells[j])
  {
    assert cells[..j + 1][..j] == cells[..j];
  }

  lemma SnapshotStep(rows: seq<Row>, i: nat)
    requires i < |rows|
    ensures SnapshotOf(rows[..i + 1]) == SnapshotOf(rows[..i])[rows[i].id := RowSnapOf(rows[i].cells)]
  {
    assert rows[..i + 1][..i] == rows[..i];
  }

  lemma PrimeCellsStep(cells: seq<EditCell>, j: nat)
    requires j < |cells|
    ensures PrimeCells(cells[..j + 1]) == PrimeCells(cells[..j]) + [PrimeCell(cells[j])]
  {
    assert cells[..j + 1][..j] == cells[..j];
  }

  /** Priming changes inputs only, cell by cell. */
  lemma {:induction false} PrimeCellsAt(cells: seq<EditCell>, j: nat)
    requires j < |cells|
    ensures PrimeCells(cells)[j] == PrimeCell(cells[j])
  {
    if j < |cells| - 1 {
      PrimeCellsAt(cells[..|cells| - 1], j);
    }
  }

  /** Priming keeps the layout. */
  lemma PrimedLayout(a: seq<Row>, b: seq<Row>)
    requires |a| == |b| && forall i :: 0 <= i < |a| ==> b[i] == Primed(a[i])
    ensures SameLayout(a, b)
  {
    forall i, j | 0 <= i < |a| && 0 <= j < |a[i].cells|
      ensures a[i].cells[j].kind == b[i].cells[j].kind
    {
      PrimeCellsAt(a[i].cells, j);
    }
  }

  /** The field names of a row's plain field cells. */
  function FieldNames(cells: seq<EditCell>): set<string> {
    if cells == [] then {}
    else
      var last := cells[|cells| - 1];
      FieldNames(cells[..|cells| - 1]) + (if last.kind.FieldCell? then {last.kind.field} else {})
  }

  /**
   * The layout the snapshot round trip rests on: within a row, captured
   * cells are filed under distinct keys, no field is named like the
   * snapshot's nested objects, and no breakdown cell shares its field name
   * with a plain field cell.
   */
  predicate WellFormedRow(cells: seq<EditCell>) {
    (forall j, k :: 0 <= j < k < |cells| && Captured(cells[j]) ==> KeyOf(cells[j]) != KeyOf(cells[k]))
    && (forall j :: 0 <= j < |cells| ==> FieldOf(cells[j].kind) != "cash_breakdown" && FieldOf(cells[j].kind) != "items")
    && (forall j :: 0 <= j < |cells| && cells[j].kind.BreakdownCell? ==> cells[j].kind.field !in FieldNames(cells))
  }

  /** Rows have distinct ids and well-formed cells. */
  predicate WellFormed(rows: seq<Row>) {
    (forall i, k :: 0 <= i < k < |rows| ==> rows[i].id != rows[k].id)
    && forall i :: 0 <= i < |rows| ==> WellFormedRow(rows[i].cells)
  }

  /** Same rows with the same kinds of cells: only texts and inputs differ. */
  predicate SameLayout(a: seq<Row>, b: seq<Row>) {
    |a| == |b|
    && forall i :: 0 <= i < |a| ==>
         a[i].id == b[i].id && |a[i].cells| == |b[i].cells|
         && forall j :: 0 <= j < |a[i].cells| ==> a[i].cells[j].kind == b[i].cells[j].kind
  }

  /** Same rows with the same cells and the same computed cells: only the computed texts differ. */
  predicate SameShape(a: seq<Row>, b: seq<Row>) {
    |a| == |b|
    && forall k :: 0 <= k < |a| ==> a[k].id == b[k].id && a[k].cells == b[k].cells && a[k].texts.Keys == b[k].texts.Keys
  }

  /** Recomputing row `i` keeps the shape. */
  lemma SameShapeStep(before: seq<Row>, after: seq<Row>, b: seq<Row>, i: nat)
    requires SameShape(before, b) && i < |before| && |after| == |before|
    requires forall k :: 0 <= k < |after| && k != i ==> after[k] == before[k]
    requires after[i].id == before[i].id && after[i].cells == before[i].cells && after[i].texts.Keys == before[i].texts.Keys
    ensures SameShape(after, b)
  {
  }

  /** What Cancel finds in a row snapshot for a captured cell: the cell's number under its own key. */
  predicate SnapCarries(s: RowSnap, c: EditCell) {
    match c.kind
    case FieldCell(f) => f in s && s[f] == Num(CellValue(c))
    case BreakdownCell(f, d) =>
      f !in s && "cash_breakdown" in s && s["cash_breakdown"].Group?
      && d in s["cash_breakdown"].g && s["cash_breakdown"].g[d] == CellValue(c)
    case ItemCell(id) =>
      "items" in s && s["items"].Group? && id in s["items"].g && s["items"].g[id] == CellValue(c)
    case PlainCell => true
  }

  /** A row snapshot holds numbers under the given field names and objects under the two nested keys only. */
  predicate SnapShaped(s: RowSnap, names: set<string>) {
    s.Keys <= names + {"cash_breakdown", "items"}
    && ("cash_breakdown" in s ==> s["cash_breakdown"].Group?)
    && ("items" in s ==> s["items"].Group?)
  }

  /** The names a cell adds to its row's field names. */
  function NameOf(c: EditCell): set<string> {
    if c.kind.FieldCell? then {c.kind.field} else {}
  }

  lemma CaptureKeepsShape(s: RowSnap, c: EditCell, names: set<string>)
    requires SnapShaped(s, names)
    requires FieldOf(c.kind) != "cash_breakdown" && FieldOf(c.kind) != "items"
    ensures SnapShaped(CaptureCell(s, c), names + NameOf(c))
  {
    match c.kind
    case FieldCell(f) =>
    case BreakdownCell(_, _) =>
    case ItemCell(_) =>
    case PlainCell =>
  }

  lemma {:induction false} RowSnapShape(cells: seq<EditCell>)
    requires forall j :: 0 <= j < |cells| ==> FieldOf(cells[j].kind) != "cash_breakdown" && FieldOf(cells[j].kind) != "items"
    ensures SnapShaped(RowSnapOf(cells), FieldNames(cells))
  {
    if cells != [] {
      var init := cells[..|cells| - 1];
      var last := cells[|cells| - 1];
      RowSnapShape(init);
      CaptureKeepsShape(RowSnapOf(init), last, FieldNames(init));
      assert FieldNames(cells) == FieldNames(init) + NameOf(last);
    }
  }

  /** Capturing a cell files its number where Cancel looks for it. */
  lemma CaptureCarries(s: RowSnap, c: EditCell, names: set<string>)
    requires SnapShaped(s, names) && Captured(c)
    requires FieldOf(c.kind) != "cash_breakdown" && FieldOf(c.kind) != "items"
    requires c.kind.BreakdownCell? ==> c.kind.field !in names
    ensures SnapCarries(CaptureCell(s, c), c)
  {
    match c.kind
    case FieldCell(f) =>
    case BreakdownCell(_, _) =>
    case ItemCell(_) =>
    case PlainCell =>
  }

  /** Capturing a cell under another key leaves what the snapshot carries for an earlier cell. */
  lemma CaptureKeepsCarry(s: RowSnap, c: EditCell, orig: EditCell, names: set<string>)
    requires SnapShaped(s, names) && SnapCarries(s, orig) && Captured(orig) && KeyOf(orig) != KeyOf(c)
    requires FieldOf(c.kind) != "cash_breakdown" && FieldOf(c.kind) != "items"
    requires FieldOf(orig.kind) != "cash_breakdown" && FieldOf(orig.kind) != "items"
    requires orig.kind.BreakdownCell? ==> orig.kind.field !in names + NameOf(c)
    ensures SnapCarries(CaptureCell(s, c), orig)
  {
    match c.kind
    case FieldCell(f) =>
    case BreakdownCell(_, _) =>
    case ItemCell(_) =>
    case PlainCell =>
  }

  /** The snapshot of a well-formed row carries every captured cell's number. */
  lemma {:induction false} RowSnapCarries(cells: seq<EditCell>, j: nat)
    requires WellFormedRow(cells) && j < |cells| && Captured(cells[j])
    ensures SnapCarries(RowSnapOf(cells), cells[j])
  {
    var init := cells[..|cells| - 1];
    var last := cells[|cells| - 1];
    assert FieldNames(cells) == FieldNames(init) + NameOf(last);
    RowSnapShape(init);
    if j == |cells| - 1 {
      CaptureCarries(RowSnapOf(init), last, FieldNames(init));
    } else {
      assert WellFormedRow(init) by {
        forall k | 0 <= k < |init| && init[k].kind.BreakdownCell?
          ensures init[k].kind.field !in FieldNames(init)
        {
          assert cells[k] == init[k];
        }
      }
      RowSnapCarries(init, j);
      assert init[j] == cells[j];
      CaptureKeepsCarry(RowSnapOf(init), last, cells[j], FieldNames(init));
    }
  }

  lemma {:induction false} SnapshotOfRow(rows: seq<Row>, i: nat)
    requires i < |rows| && forall a, b :: 0 <= a < b < |rows| ==> rows[a].id != rows[b].id
    ensures rows[i].id in SnapshotOf(rows) && SnapshotOf(rows)[rows[i].id] == RowSnapOf(rows[i].cells)
  {
    if i < |rows| - 1 {
      var init := rows[..|rows| - 1];
      SnapshotOfRow(init, i);
      assert init[i] == rows[i];
    }
  }

  /** A cell restored from a snapshot that carries a number shows and holds that number. */
  lemma RestoreReadsBack(c: EditCell, s: RowSnap, orig: EditCell)
    requires c.kind == orig.kind && Captured(orig) && SnapCarries(s, orig)
    ensures RestoreCell(c, s).input == IntToString(CellValue(orig))
    ensures CellValue(RestoreCell(c, s)) == CellValue(orig)
  {
    var v := CellValue(orig);
    PlainReadsBack(v);
    CurrencyReadsBack(v);
  }

  /**
   * Cancel undoes everything typed since Edit: whatever the inputs hold
   * meanwhile, every captured cell gets back the input Edit gave it and a
   * display showing the number Edit read.
   */
  lemma CancelRestoresEdit(rows: seq<Row>, later: seq<Row>)
    requires WellFormed(rows) && SameLayout(rows, later)
    ensures forall i, j :: 0 <= i < |rows| && 0 <= j < |rows[i].cells| && Captured(rows[i].cells[j]) ==>
      var restored := RestoreRow(later[i], SnapshotOf(rows)).cells[j];
      restored.input == PrimeCell(rows[i].cells[j]).input && CellValue(restored) == CellValue(rows[i].cells[j])
  {
    forall i, j | 0 <= i < |rows| && 0 <= j < |rows[i].cells| && Captured(rows[i].cells[j])
      ensures var restored := RestoreRow(later[i], SnapshotOf(rows)).cells[j];
        restored.input == PrimeCell(rows[i].cells[j]).input && CellValue(restored) == CellValue(rows[i].cells[j])
    {
      SnapshotOfRow(rows, i);
      RowSnapCarries(rows[i].cells, j);
      RestoreCellsAt(later[i].cells, RowSnapOf(rows[i].cells), j);
      RestoreReadsBack(later[i].cells[j], RowSnapOf(rows[i].cells), rows[i].cells[j]);
    }
  }

  lemma BreakdownPairsStep(cells: seq<EditCell>, j: nat)
    requires j < |cells|
    ensures BreakdownPairs(cells[..j + 1]) == BreakdownPairs(cells[..j])
      + (if cells[j].kind.BreakdownCell? then [(cells[j].kind.denom, cells[j].input)] else [])
  {
    assert cells[..j + 1][..j] == cells[..j];
  }

  lemma ItemInputsStep(cells: seq<EditCell>, j: nat)
    requires j < |cells|
    ensures ItemInputs(cells[..j + 1]) == ItemInputs(cells[..j]) + (if cells[j].kind.ItemCell? then [cells[j].input] else [])
  {
    assert cells[..j + 1][..j] == cells[..j];
  }

  lemma PairsValueAppend(q: seq<(string, string)>, x: (string, string))
    ensures PairsValue(q + [x]) == PairsValue(q) + TextValue(x.0) * TextValue(x.1)
  {
    assert (q + [x])[..|q|] == q;
  }

  lemma DenomCountAppend(q: seq<(string, string)>, x: (string, string), d: string)
    ensures DenomCount(q + [x], d) == DenomCount(q, d) + (if x.0 == d then TextValue(x.1) else 0)
  {
    assert (q + [x])[..|q|] == q;
  }

  lemma NumSumAppend(q: seq<string>, x: string)
    ensures NumSum(q + [x]) == NumSum(q) + TextValue(x)
  {
    assert (q + [x])[..|q|] == q;
  }

  /** One more cell of a row's breakdown: its denomination times its count is added to the closing cash. */
  lemma ClosingStep(cells: seq<EditCell>, j: nat)
    requires j < |cells|
    ensures PairsValue(BreakdownPairs(cells[..j + 1])) == PairsValue(BreakdownPairs(cells[..j]))
      + (if cells[j].kind.BreakdownCell? then TextValue(cells[j].kind.denom) * TextValue(cells[j].input) else 0)
  {
    var c := cells[j];
    BreakdownPairsStep(cells, j);
    if c.kind.BreakdownCell? {
      PairsValueAppend(BreakdownPairs(cells[..j]), (c.kind.denom, c.input));
    } else {
      assert BreakdownPairs(cells[..j]) + [] == BreakdownPairs(cells[..j]);
    }
  }

  /** One more cell of a row: an item input is added to the amount. */
  lemma AmountStep(cells: seq<EditCell>, j: nat)
    requires j < |cells|
    ensures NumSum(ItemInputs(cells[..j + 1])) == NumSum(ItemInputs(cells[..j]))
      + (if cells[j].kind.ItemCell? then TextValue(cells[j].input) else 0)
  {
    var c := cells[j];
    ItemInputsStep(cells, j);
    if c.kind.ItemCell? {
      NumSumAppend(ItemInputs(cells[..j]), c.input);
    } else {
      assert ItemInputs(cells[..j]) + [] == ItemInputs(cells[..j]);
    }
  }

  /** One more cell of a row: a count entered for `d` is added to the denomination's count. */
  lemma CountStep(cells: seq<EditCell>, j: nat, d: string)
    requires j < |cells|
    ensures DenomCount(BreakdownPairs(cells[..j + 1]), d) == DenomCount(BreakdownPairs(cells[..j]), d)
      + (if cells[j].kind.BreakdownCell? && cells[j].kind.denom == d then TextValue(cells[j].input) else 0)
  {
    var c := cells[j];
    BreakdownPairsStep(cells, j);
    if c.kind.BreakdownCell? {
      DenomCountAppend(BreakdownPairs(cells[..j]), (c.kind.denom, c.input), d);
    } else {
      assert BreakdownPairs(cells[..j]) + [] == BreakdownPairs(cells[..j]);
    }
  }

  /** A row's closing cash: denomination times count over its breakdown inputs. */
  method RowClosing(cells: seq<EditCell>) returns (closing: int)
    ensures closing == PairsValue(BreakdownPairs(cells))
  {
    closing := 0;
    var j := 0;
    while j < |cells|
      invariant 0 <= j <= |cells|
      invariant closing == PairsValue(BreakdownPairs(cells[..j]))
    {
      ClosingStep(cells, j);
      if cells[j].kind.BreakdownCell? {
        closing := closing + TextValue(cells[j].kind.denom) * TextValue(cells[j].input);
      }
      j := j + 1;
    }
    assert cells[..j] == cells;
  }

  /** The amount of a transaction-log row: the sum of its item inputs. */
  method ItemsAmount(cells: seq<EditCell>) returns (amount: int)
    ensures amount == NumSum(ItemInputs(cells))
  {
    amount := 0;
    var j := 0;
    while j < |cells|
      invariant 0 <= j <= |cells|
      invariant amount == NumSum(ItemInputs(cells[..j]))
    {
      AmountStep(cells, j);
      if cells[j].kind.ItemCell? {
        amount := amount + TextValue(cells[j].input);
      }
      j := j + 1;
    }
    assert cells[..j] == cells;
  }

  /** The counts a row's breakdown inputs hold for denomination `d`. */
  method CountDenom(cells: seq<EditCell>, d: string) returns (count: int)
    ensures count == DenomCount(BreakdownPairs(cells), d)
  {
    count := 0;
    var j := 0;
    while j < |cells|
      invariant 0 <= j <= |cells|
      invariant count == DenomCount(BreakdownPairs(cells[..j]), d)
    {
      CountStep(cells, j, d);
      if cells[j].kind.BreakdownCell? && cells[j].kind.denom == d {
        count := count + TextValue(cells[j].input);
      }
      j := j + 1;
    }
    assert cells[..j] == cells;
  }

  /** Edit's nested loops: each row's snapshot filed under its id, and each row with its numbers written into its inputs. */
  method SnapshotRows(rs: seq<Row>) returns (data: map<string, RowSnap>, primed: seq<Row>)
    ensures data == SnapshotOf(rs)
    ensures |primed| == |rs| && forall i :: 0 <= i < |rs| ==> primed[i] == Primed(rs[i])
  {
    data := map[];
    primed := [];
    var i := 0;
    while i < |rs|
      invariant 0 <= i <= |rs|
      invariant data == SnapshotOf(rs[..i])
      invariant |primed| == i
      invariant forall k :: 0 <= k < i ==> primed[k] == Primed(rs[k])
    {
      var row := rs[i];
      var snap, cells := SnapshotCells(row.cells);
      SnapshotStep(rs, i);
      data := data[row.id := snap];
      primed := primed + [row.(cells := cells)];
      i := i + 1;
    }
    assert rs[..i] == rs;
  }

  /** Edit's inner loop over one row: the snapshot of its cells, and the cells with their numbers written into their inputs. */
  method SnapshotCells(rowCells: seq<EditCell>) returns (snap: RowSnap, cells: seq<EditCell>)
    ensures snap == RowSnapOf(rowCells) && cells == PrimeCells(rowCells)
  {
    snap := map[];
    cells := [];
    var j := 0;
    while j < |rowCells|
      invariant 0 <= j <= |rowCells|
      invariant snap == RowSnapOf(rowCells[..j])
      invariant cells == PrimeCells(rowCells[..j])
    {
      RowSnapStep(rowCells, j);
      PrimeCellsStep(rowCells, j);
      snap := CaptureCell(snap, rowCells[j]);
      cells := cells + [PrimeCell(rowCells[j])];
      j := j + 1;
    }
    assert rowCells[..j] == rowCells;
  }

  /** Cancel's first pass: every row's cells written back from the snapshot stored under its id. */
  method RestoreRows(rs: seq<Row>, data: map<string, RowSnap>) returns (restored: seq<Row>)
    ensures restored == RestoreAll(rs, data)
  {
    restored := [];
    var i := 0;
    while i < |rs|
      invariant 0 <= i <= |rs|
      invariant restored == RestoreAll(rs[..i], data)
    {
      var row := rs[i];
      if row.id in data {
        var cells: seq<EditCell> := [];
        var j := 0;
        while j < |row.cells|
          invariant 0 <= j <= |row.cells|
          invariant cells == RestoreCells(row.cells[..j], data[row.id])
        {
          RestoreCellsStep(row.cells, data[row.id], j);
          cells := cells + [RestoreCell(row.cells[j], data[row.id])];
          j := j + 1;
        }
        assert row.cells[..j] == row.cells;
        row := row.(cells := cells);
      }
      RestoreAllStep(rs, data, i);
      restored := restored + [row];
      i := i + 1;
    }
    assert rs[..i] == rs;
  }

  class Table {
    const reportType: ReportType
    /** The page has a grand-total row. */
    const hasGrandRow: bool
    /** The denominations that have a total cell in the grand-total row. */
    const denomTotalCells: set<string>
    var rows: seq<Row>
    var editing: bool
    /** The snapshot Edit stores on the table; None before the first Edit. */
    var originalData: Option<map<string, RowSnap>>
    var grandClosing: string
    var denomTotals: map<string, string>

    constructor(reportType: ReportType, rows: seq<Row>, hasGrandRow: bool, denomTotalCells: set<string>)
      ensures this.reportType == reportType && this.rows == rows
      ensures this.hasGrandRow == hasGrandRow && this.denomTotalCells == denomTotalCells
      ensures !editing && originalData.None? && grandClosing == "" && denomTotals == map[]
    {
      this.reportType := reportType;
      this.rows := rows;
      this.hasGrandRow := hasGrandRow;
      this.denomTotalCells := denomTotalCells;
      editing := false;
      originalData := None;
      grandClosing := "";
      denomTotals := map[];
    }

    /** The buttons on show: Save and Cancel while editing, Edit otherwise. */
    function VisibleButtons(): (b: set<Button>)
      reads this
      ensures (EditButton in b) != editing
      ensures SaveButton in b <==> editing
      ensures CancelButton in b <==> editing
    {
      if editing then {SaveButton, CancelButton} else {EditButton}
    }

    method ToggleEditMode(on: bool)
      modifies this`editing
      ensures editing == on
    {
      editing := on;
    }

    /** The row updater of this report type can run on `rs[i]` without meeting a missing cell. */
    predicate Updatable(rs: seq<Row>, i: nat)
      requires i < |rs|
    {
      match reportType
      case DailySummary => SummaryUpdatable(rs[i])
      case DailyCashSummary => CashSummaryUpdatable(rs[i])
      case TransactionLog => LogUpdatable(rs[i])
      case DailyCashCheck => !hasGrandRow || forall k :: 0 <= k < |rs| ==> "closing_cash_display" in rs[k].texts
      case OtherReport => true
    }

    /** The row's computed cells agree with its inputs. */
    predicate Current(r: Row) {
      match reportType
      case DailySummary => SummaryCurrent(r)
      case DailyCashSummary => CashSummaryCurrent(r)
      case TransactionLog => LogCurrent(r)
      case DailyCashCheck => CashCheckCurrent(r)
      case OtherReport => true
    }

    method UpdateDailySummaryRow(i: nat) returns (ok: bool)
      requires i < |rows|
      modifies this`rows
      ensures ok <==> SummaryUpdatable(old(rows)[i])
      ensures |rows| == |old(rows)| && forall k :: 0 <= k < |rows| && k != i ==> rows[k] == old(rows)[k]
      ensures rows[i].id == old(rows)[i].id && rows[i].cells == old(rows)[i].cells
      ensures TextsAgreeExcept(old(rows)[i].texts, rows[i].texts, {"expected_cash", "cash_diff"})
      ensures ok ==> SummaryCurrent(rows[i])
      ensures !ok ==> (rows[i].diffRed == old(rows)[i].diffRed
                       && ("cash_diff" in rows[i].texts ==> rows[i].texts["cash_diff"] == old(rows)[i].texts["cash_diff"]))
    {
      var row := rows[i];
      var opening := InputOf(row.cells, "opening_cash");
      if opening.None? || "expected_cash" !in row.texts {
        return false;
      }
      var expected := TextValue(opening.value) + CellNumber(row, "total_sales");
      var diff := CellNumber(row, "closing_cash") - expected;
      var written := row.(texts := row.texts["expected_cash" := FormatCurrency(expected)]);
      ExpectedWritten(row, written, expected);
      if "cash_diff" !in row.texts {
        rows := rows[i := written];
        return false;
      }
      var done := written.(texts := written.texts["cash_diff" := FormatCurrency(diff)], diffRed := diff < 0);
      SummaryWritten(row, done, expected, diff);
      rows := rows[i := done];
      ok := true;
    }

    method UpdateDailyCashSummaryRow(i: nat) returns (ok: bool)
      requires i < |rows|
      modifies this`rows
      ensures ok <==> CashSummaryUpdatable(old(rows)[i])
      ensures |rows| == |old(rows)| && forall k :: 0 <= k < |rows| && k != i ==> rows[k] == old(rows)[k]
      ensures rows[i].id == old(rows)[i].id && rows[i].cells == old(rows)[i].cells && rows[i].diffRed == old(rows)[i].diffRed
      ensures TextsAgreeExcept(old(rows)[i].texts, rows[i].texts, {"other_cash"})
      ensures ok ==> CashSummaryCurrent(rows[i])
      ensures !ok ==> rows == old(rows)
    {
      var row := rows[i];
      var donation := InputOf(row.cells, "donation_total");
      var other := InputOf(row.cells, "other_total");
      if donation.None? || other.None? || "other_cash" !in row.texts {
        return false;
      }
      var total := TextValue(donation.value) + TextValue(other.value);
      var done := row.(texts := row.texts["other_cash" := LabelledNumber(total)]);
      OtherCashWritten(row, done, total);
      rows := rows[i := done];
      ok := true;
    }

    method UpdateTransactionLogRow(i: nat) returns (ok: bool)
      requires i < |rows|
      modifies this`rows
      ensures ok <==> LogUpdatable(old(rows)[i])
      ensures |rows| == |old(rows)| && forall k :: 0 <= k < |rows| && k != i ==> rows[k] == old(rows)[k]
      ensures rows[i].id == old(rows)[i].id && rows[i].cells == old(rows)[i].cells && rows[i].diffRed == old(rows)[i].diffRed
      ensures TextsAgreeExcept(old(rows)[i].texts, rows[i].texts, {"amount", "change_given"})
      ensures "amount" in rows[i].texts ==> rows[i].texts["amount"] == FormatCurrency(LogAmount(rows[i].cells))
      ensures ok ==> LogCurrent(rows[i])
      ensures !ok && "change_given" in rows[i].texts ==> rows[i].texts["change_given"] == old(rows)[i].texts["change_given"]
    {
      var row := rows[i];
      var amount := ItemsAmount(row.cells);
      if "amount" !in row.texts {
        return false;
      }
      var written := row.(texts := row.texts["amount" := FormatCurrency(amount)]);
      AmountWritten(row, written, amount);
      var cash := InputOf(row.cells, "cash_received");
      if cash.None? || "change_given" !in row.texts {
        rows := rows[i := written];
        return false;
      }
      var change := TextValue(cash.value) - amount;
      var done := written.(texts := written.texts["change_given" := FormatCurrency(change)]);
      LogWritten(row, done, amount, change);
      rows := rows[i := done];
      ok := true;
    }

    /** The counts entered for denomination `d` over all rows. */
    method SumDenom(d: string) returns (total: int)
      ensures total == DenomTotal(rows, d)
    {
      total := 0;
      var a := 0;
      while a < |rows|
        invariant 0 <= a <= |rows|
        invariant total == DenomTotal(rows[..a], d)
      {
        var count := CountDenom(rows[a].cells, d);
        assert rows[..a + 1][..a] == rows[..a];
        total := total + count;
        a := a + 1;
      }
      assert rows[..a] == rows;
    }

    method UpdateDailyCashCheckRow(i: nat) returns (ok: bool)
      requires i < |rows|
      modifies this`rows, this`grandClosing, this`denomTotals
      ensures ok <==> !hasGrandRow || forall k :: 0 <= k < |old(rows)| ==> "closing_cash_display" in old(rows)[k].texts
      ensures |rows| == |old(rows)| && forall k :: 0 <= k < |rows| && k != i ==> rows[k] == old(rows)[k]
      ensures rows[i].id == old(rows)[i].id && rows[i].cells == old(rows)[i].cells && rows[i].diffRed == old(rows)[i].diffRed
      ensures TextsAgreeExcept(old(rows)[i].texts, rows[i].texts, {"closing_cash_display"})
      ensures CashCheckCurrent(rows[i])
      ensures ok && hasGrandRow ==> grandClosing == LabelledNumber(DisplayedClosings(rows))
      ensures ok && hasGrandRow ==> DenomTotalsShown(old(denomTotals), denomTotals, denomTotalCells, rows)
      ensures !(ok && hasGrandRow) ==> grandClosing == old(grandClosing) && denomTotals == old(denomTotals)
    {
      var row := rows[i];
      var closing := RowClosing(row.cells);
      if "closing_cash_display" in row.texts {
        var done := row.(texts := row.texts["closing_cash_display" := LabelledNumber(closing)]);
        ClosingWritten(row, done, closing);
        rows := rows[i := done];
      }
      assert forall k :: 0 <= k < |rows| ==>
        ("closing_cash_display" in rows[k].texts <==> "closing_cash_display" in old(rows)[k].texts);
      if !hasGrandRow {
        return true;
      }
      var grand;
      ok, grand := SumDisplayed();
      if !ok {
        return;
      }
      grandClosing := LabelledNumber(grand);
      DenominationTotals();
    }

    /** The grand closing cash read back from every row's closing cell; fails at the first row without one. */
    method SumDisplayed() returns (ok: bool, grand: int)
      ensures ok <==> forall k :: 0 <= k < |rows| ==> "closing_cash_display" in rows[k].texts
      ensures ok ==> grand == DisplayedClosings(rows)
    {
      grand := 0;
      var k := 0;
      while k < |rows|
        invariant 0 <= k <= |rows|
        invariant grand == DisplayedClosings(rows[..k])
        invariant forall m :: 0 <= m < k ==> "closing_cash_display" in rows[m].texts
      {
        assert rows[..k + 1][..k] == rows[..k];
        if "closing_cash_display" !in rows[k].texts {
          return false, grand;
        }
        grand := grand + TextValue(rows[k].texts["closing_cash_display"]);
        k := k + 1;
      }
      assert rows[..k] == rows;
      ok := true;
    }

    /** The per-denomination totals of the grand-total row, recomputed for every breakdown input of the table. */
    method DenominationTotals()
      modifies this`denomTotals
      ensures DenomTotalsShown(old(denomTotals), denomTotals, denomTotalCells, rows)
    {
      ghost var done: set<string> := {};
      var a := 0;
      while a < |rows|
        invariant 0 <= a <= |rows|
        invariant done == TableDenoms(rows[..a])
        invariant TotalsFor(old(denomTotals), denomTotals, denomTotalCells, rows, done)
      {
        var cells := rows[a].cells;
        var b := 0;
        while b < |cells|
          invariant 0 <= b <= |cells|
          invariant done == TableDenoms(rows[..a]) + DenomsOf(cells[..b])
          invariant TotalsFor(old(denomTotals), denomTotals, denomTotalCells, rows, done)
        {
          DenomsOfStep(cells, b);
          if cells[b].kind.BreakdownCell? {
            var d := cells[b].kind.denom;
            var total := SumDenom(d);
            TotalsStep(old(denomTotals), denomTotals, denomTotalCells, rows, done, d);
            if d in denomTotalCells {
              denomTotals := denomTotals[d := FormatNumber(total)];
            }
            done := done + {d};
          }
          b := b + 1;
        }
        assert cells[..b] == cells;
        TableDenomsStep(rows, a);
        a := a + 1;
      }
      assert rows[..a] == rows;
    }

    /** The updater of this report type, run on row `i`. */
    method UpdateRow(i: nat) returns (ok: bool)
      requires i < |rows|
      modifies this`rows, this`grandClosing, this`denomTotals
      ensures ok <==> Updatable(old(rows), i)
      ensures |rows| == |old(rows)| && forall k :: 0 <= k < |rows| && k != i ==> rows[k] == old(rows)[k]
      ensures rows[i].id == old(rows)[i].id && rows[i].cells == old(rows)[i].cells
      ensures rows[i].texts.Keys == old(rows)[i].texts.Keys
      ensures ok ==> Current(rows[i])
    {
      match reportType
      case DailySummary => ok := UpdateDailySummaryRow(i);
      case DailyCashSummary => ok := UpdateDailyCashSummaryRow(i);
      case TransactionLog => ok := UpdateTransactionLogRow(i);
      case DailyCashCheck => ok := UpdateDailyCashCheckRow(i);
      case OtherReport => ok := true;
    }

    /** Typing into an input of row `i` recomputes that row. */
    method InputChanged(i: nat, j: nat, value: string) returns (ok: bool)
      requires i < |rows| && j < |rows[i].cells|
      modifies this`rows, this`grandClosing, this`denomTotals
      ensures |rows| == |old(rows)| && forall k :: 0 <= k < |rows| && k != i ==> rows[k] == old(rows)[k]
      ensures rows[i].id == old(rows)[i].id && rows[i].cells == old(rows)[i].cells[j := old(rows)[i].cells[j].(input := value)]
      ensures ok ==> Current(rows[i])
    {
      var row := rows[i];
      rows := rows[i := row.(cells := row.cells[j := row.cells[j].(input := value)])];
      ok := UpdateRow(i);
    }

    /** The Edit button: snapshot every editable value, write it into the inputs, enter edit mode. */
    method Edit()
      modifies this`rows, this`originalData, this`editing
      ensures originalData == Some(SnapshotOf(old(rows)))
      ensures |rows| == |old(rows)|
      ensures forall i :: 0 <= i < |rows| ==> rows[i] == Primed(old(rows)[i])
      ensures SameLayout(old(rows), rows)
      ensures editing
    {
      var data, primed := SnapshotRows(rows);
      PrimedLayout(rows, primed);
      rows := primed;
      originalData := Some(data);
      editing := true;
    }

    /**
     * The Cancel button: write the snapshot back into every row it has,
     * recompute every row, leave edit mode. Without a snapshot the stored
     * text does not parse and nothing happens; an updater meeting a
     * missing cell stops the handler before edit mode is left.
     */
    method Cancel() returns (ok: bool)
      modifies this`rows, this`editing, this`grandClosing, this`denomTotals
      ensures old(originalData).None? ==> !ok && rows == old(rows) && editing == old(editing)
      ensures old(originalData).Some? ==> SameShape(rows, RestoreAll(old(rows), old(originalData).value))
      ensures ok <==> (old(originalData).Some?
                       && forall i :: 0 <= i < |old(rows)| ==> Updatable(RestoreAll(old(rows), old(originalData).value), i))
      ensures ok ==> !editing && forall i :: 0 <= i < |rows| ==> Current(rows[i])
      ensures !ok ==> editing == old(editing)
    {
      if originalData.None? {
        return false;
      }
      var data := originalData.value;
      var restored := RestoreRows(rows, data);
      rows := restored;
      var i := 0;
      while i < |rows|
        invariant 0 <= i <= |rows|
        invariant SameShape(rows, restored)
        invariant forall k :: 0 <= k < i ==> Current(rows[k]) && Updatable(restored, k)
        invariant editing == old(editing)
      {
        ghost var before := rows;
        ok := UpdateRow(i);
        SameShapeUpdatable(before, restored, i);
        SameShapeStep(before, rows, restored, i);
        if !ok {
          return false;
        }
        i := i + 1;
      }
      editing := false;
      ok := true;
    }

    /** Whether an updater can run depends on the cells and on which computed cells exist, not on their texts. */
    lemma SameShapeUpdatable(a: seq<Row>, b: seq<Row>, i: nat)
      requires SameShape(a, b) && i < |a|
      ensures Updatable(a, i) == Updatable(b, i)
    {
      if reportType == DailyCashCheck && hasGrandRow {
        assert forall k :: 0 <= k < |a| ==> ("closing_cash_display" in a[k].texts <==> "closing_cash_display" in b[k].texts);
      }
    }
  }
}
