/**
 * The report editor's save handlers. Each walks the submitted rows, writes
 * the edited figures into the business days (and transactions) it finds,
 * recomputes the expected cash and the cash difference, and commits only
 * if no value failed to convert; a failed conversion rolls the whole
 * request back.
 */
module ReportEdits {
  import opened Wrappers
  import opened Models
  import opened Cashier

  /** A submitted JSON value as `float()` / `int()` treat it: a number, or something they raise on (null, a non-numeric string). */
  datatype NumArg = Num(v: int) | NotANumber

  /** The expected cash and cash difference recomputed from the day's other figures. */
  function Recompute(d: BusinessDay): (r: BusinessDay)
    ensures Reconciled(r)
    ensures r.(expectedCash := d.expectedCash, cashDiff := d.cashDiff) == d
  {
    d.(expectedCash := Some(d.openingCash + d.totalSales), cashDiff := Some(d.closingCash.GetOr(0) - (d.openingCash + d.totalSales)))
  }

  /** `after` keeps everything of `before` that the register's consistency rests on, and is reconciled. */
  predicate ReconciledEdit(before: BusinessDay, after: BusinessDay) {
    && after.status == before.status
    && after.totalSales == before.totalSales && after.totalItems == before.totalItems
    && after.totalTransactions == before.totalTransactions
    && (before.closingCash.Some? ==> after.closingCash.Some?)
    && BreakdownMatchesClosing(after)
    && Reconciled(after)
  }

  /** Replacing one day by a reconciled edit of it keeps the register consistent and moves no status. */
  lemma ReconciledEditKeepsConsistent(days: map<DayKey, BusinessDay>, txs: seq<Transaction>, k: DayKey, d: BusinessDay)
    requires Consistent(days, txs) && k in days
    requires ReconciledEdit(days[k], d)
    ensures Consistent(days[k := d], txs) && ForwardOnly(days, days[k := d])
  {
  }

  // ---------------------------------------------------------------------
  // save_daily_summary_data
  // ---------------------------------------------------------------------

  /** One row of the daily-summary editor: the day and, if sent, its new opening cash. */
  datatype SummaryEdit = SummaryEdit(id: DayKey, openingCash: Option<NumArg>)

  /** One row: an unknown day is skipped; an opening cash that is not a number aborts the request. */
  function ApplySummaryEdit(days: map<DayKey, BusinessDay>, e: SummaryEdit): (r: Option<map<DayKey, BusinessDay>>)
    ensures r.None? <==> e.id in days && e.openingCash == Some(NotANumber)
    ensures r.Some? ==> r.value.Keys == days.Keys && forall k :: k in days && k != e.id ==> r.value[k] == days[k]
    ensures r.Some? && e.id in days ==>
      && Reconciled(r.value[e.id])
      && r.value[e.id].openingCash == (if e.openingCash.Some? then e.openingCash.value.v else days[e.id].openingCash)
      && r.value[e.id].(openingCash := days[e.id].openingCash, expectedCash := days[e.id].expectedCash, cashDiff := days[e.id].cashDiff) == days[e.id]
  {
    if e.id !in days then Some(days)
    else
      var d := days[e.id];
      match e.openingCash
      case None => Some(days[e.id := Recompute(d)])
      case Some(NotANumber) => None
      case Some(Num(v)) => Some(days[e.id := Recompute(d.(openingCash := v))])
  }

  /** All rows in order; None when some row aborts the request. */
  function ApplySummaryEdits(days: map<DayKey, BusinessDay>, edits: seq<SummaryEdit>): Option<map<DayKey, BusinessDay>>
    decreases |edits|
  {
    if edits == [] then Some(days)
    else
      match ApplySummaryEdit(days, edits[0])
      case None => None
      case Some(days') => ApplySummaryEdits(days', edits[1..])
  }

  /** A committed daily-summary save keeps the register consistent and moves no status. */
  lemma {:induction false} SummaryEditsKeepConsistent(days: map<DayKey, BusinessDay>, txs: seq<Transaction>, edits: seq<SummaryEdit>)
    requires Consistent(days, txs)
    requires ApplySummaryEdits(days, edits).Some?
    ensures var r := ApplySummaryEdits(days, edits).value;
      Consistent(r, txs) && ForwardOnly(days, r) && r.Keys == days.Keys
    decreases |edits|
  {
    if edits != [] {
      var e := edits[0];
      var days' := ApplySummaryEdit(days, e).value;
      if e.id in days {
        ReconciledEditKeepsConsistent(days, txs, e.id, days'[e.id]);
        assert days' == days[e.id := days'[e.id]];
      } else {
        assert days' == days;
      }
      SummaryEditsKeepConsistent(days', txs, edits[1..]);
      ForwardOnlyTransitive(days, days', ApplySummaryEdits(days', edits[1..]).value);
    }
  }

  /** A committed save leaves every day it was not sent unchanged. */
  lemma {:induction false} SummaryEditsKeepUnsent(days: map<DayKey, BusinessDay>, edits: seq<SummaryEdit>, k: DayKey)
    requires ApplySummaryEdits(days, edits).Some?
    requires k in days && forall i :: 0 <= i < |edits| ==> edits[i].id != k
    ensures k in ApplySummaryEdits(days, edits).value && ApplySummaryEdits(days, edits).value[k] == days[k]
    decreases |edits|
  {
    if edits != [] {
      var days' := ApplySummaryEdit(days, edits[0]).value;
      assert forall j :: 0 <= j < |edits[1..]| ==> edits[1..][j].id == edits[j + 1].id;
      SummaryEditsKeepUnsent(days', edits[1..], k);
    }
  }

  /** A committed save leaves every day it was sent reconciled. */
  lemma {:induction false} SummaryEditsReconcile(days: map<DayKey, BusinessDay>, edits: seq<SummaryEdit>, i: nat)
    requires ApplySummaryEdits(days, edits).Some?
    requires i < |edits| && edits[i].id in days
    ensures edits[i].id in ApplySummaryEdits(days, edits).value && Reconciled(ApplySummaryEdits(days, edits).value[edits[i].id])
    decreases |edits|
  {
    var e := edits[0];
    var days' := ApplySummaryEdit(days, e).value;
    if i > 0 {
      assert edits[1..][i - 1] == edits[i];
      SummaryEditsReconcile(days', edits[1..], i - 1);
    } else if j :| 0 <= j < |edits[1..]| && edits[1..][j].id == e.id {
      SummaryEditsReconcile(days', edits[1..], j);
    } else {
      SummaryEditsKeepUnsent(days', edits[1..], e.id);
    }
  }

  /** `save_daily_summary_data`: all rows or none. */
  method SaveDailySummaryData(reg: Register, edits: seq<SummaryEdit>) returns (ok: bool)
    requires reg.Valid()
    modifies reg
    ensures reg.Valid() && ForwardOnly(old(reg.days), reg.days) && reg.txs == old(reg.txs)
    ensures ok <==> ApplySummaryEdits(old(reg.days), edits).Some?
    ensures ok ==> reg.days == ApplySummaryEdits(old(reg.days), edits).value
    ensures !ok ==> reg.days == old(reg.days)
  {
    var days := reg.days;
    var i := 0;
    while i < |edits|
      invariant 0 <= i <= |edits|
      invariant ApplySummaryEdits(reg.days, edits) == ApplySummaryEdits(days, edits[i..])
    {
      var e := edits[i];
      assert edits[i..][0] == e && edits[i..][1..] == edits[i + 1..];
      if e.id in days {
        var d := days[e.id];
        var opening := d.openingCash;
        if e.openingCash.Some? {
          match e.openingCash.value
          case NotANumber =>
            return false;
          case Num(v) =>
            opening := v;
        }
        d := d.(openingCash := opening);
        d := d.(expectedCash := Some(d.openingCash + d.totalSales));
        d := d.(cashDiff := Some(d.closingCash.GetOr(0) - d.expectedCash.value));
        days := days[e.id := d];
      }
      i := i + 1;
    }
    assert edits[i..] == [];
    SummaryEditsKeepConsistent(reg.days, reg.txs, edits);
    reg.days := days;
    ok := true;
  }

  // ---------------------------------------------------------------------
  // save_cash_check_data
  // ---------------------------------------------------------------------

  /** One row of the cash-check editor: the day and, if a dict was sent, its (denomination, count) pairs. */
  datatype CashCheckEdit = CashCheckEdit(id: DayKey, breakdown: Option<seq<(NumArg, NumArg)>>)

  /** The pairs with both sides converted; None when any side is not a number. */
  function ParseBreakdown(pairs: seq<(NumArg, NumArg)>): (r: Option<seq<(int, int)>>)
    ensures r.Some? <==> forall i :: 0 <= i < |pairs| ==> pairs[i].0.Num? && pairs[i].1.Num?
    ensures r.Some? ==> |r.value| == |pairs| && forall i :: 0 <= i < |pairs| ==> r.value[i] == (pairs[i].0.v, pairs[i].1.v)
  {
    if pairs == [] then Some([])
    else
      var init := ParseBreakdown(pairs[..|pairs| - 1]);
      var last := pairs[|pairs| - 1];
      if init.Some? && last.0.Num? && last.1.Num? then Some(init.value + [(last.0.v, last.1.v)]) else None
  }

  /**
   * One row: an unknown day is skipped; a sent breakdown replaces the
   * stored one and the closing cash becomes its total; either way the
   * expected cash and difference are recomputed.
   */
  function ApplyCashCheckEdit(days: map<DayKey, BusinessDay>, e: CashCheckEdit): (r: Option<map<DayKey, BusinessDay>>)
    ensures r.None? <==> e.id in days && e.breakdown.Some? && ParseBreakdown(e.breakdown.value).None?
    ensures r.Some? ==> r.value.Keys == days.Keys && forall k :: k in days && k != e.id ==> r.value[k] == days[k]
    ensures r.Some? && e.id in days && e.breakdown.Some? ==>
      var b := ParseBreakdown(e.breakdown.value).value;
      r.value[e.id] == Recompute(days[e.id].(closingCash := Some(BreakdownTotal(b)), cashBreakdown := Some(b)))
    ensures r.Some? && e.id in days && e.breakdown.None? ==> r.value[e.id] == Recompute(days[e.id])
  {
    if e.id !in days then Some(days)
    else
      var d := days[e.id];
      if e.breakdown.None? then Some(days[e.id := Recompute(d)])
      else
        match ParseBreakdown(e.breakdown.value)
        case None => None
        case Some(b) => Some(days[e.id := Recompute(d.(closingCash := Some(BreakdownTotal(b)), cashBreakdown := Some(b)))])
  }

  function ApplyCashCheckEdits(days: map<DayKey, BusinessDay>, edits: seq<CashCheckEdit>): Option<map<DayKey, BusinessDay>>
    decreases |edits|
  {
    if edits == [] then Some(days)
    else
      match ApplyCashCheckEdit(days, edits[0])
      case None => None
      case Some(days') => ApplyCashCheckEdits(days', edits[1..])
  }

  /**
   * A committed cash-check save keeps the register consistent (in
   * particular every stored breakdown still adds up to its closing cash)
   * and moves no status.
   */
  lemma {:induction false} CashCheckEditsKeepConsistent(days: map<DayKey, BusinessDay>, txs: seq<Transaction>, edits: seq<CashCheckEdit>)
    requires Consistent(days, txs)
    requires ApplyCashCheckEdits(days, edits).Some?
    ensures var r := ApplyCashCheckEdits(days, edits).value;
      Consistent(r, txs) && ForwardOnly(days, r) && r.Keys == days.Keys
    decreases |edits|
  {
    if edits != [] {
      var e := edits[0];
      var days' := ApplyCashCheckEdit(days, e).value;
      if e.id in days {
        ReconciledEditKeepsConsistent(days, txs, e.id, days'[e.id]);
        assert days' == days[e.id := days'[e.id]];
      } else {
        assert days' == days;
      }
      CashCheckEditsKeepConsistent(days', txs, edits[1..]);
      ForwardOnlyTransitive(days, days', ApplyCashCheckEdits(days', edits[1..]).value);
    }
  }

  /** A committed save leaves every day it was not sent unchanged. */
  lemma {:induction false} CashCheckEditsKeepUnsent(days: map<DayKey, BusinessDay>, edits: seq<CashCheckEdit>, k: DayKey)
    requires ApplyCashCheckEdits(days, edits).Some?
    requires k in days && forall i :: 0 <= i < |edits| ==> edits[i].id != k
    ensures k in ApplyCashCheckEdits(days, edits).value && ApplyCashCheckEdits(days, edits).value[k] == days[k]
    decreases |edits|
  {
    if edits != [] {
      var days' := ApplyCashCheckEdit(days, edits[0]).value;
      assert forall j :: 0 <= j < |edits[1..]| ==> edits[1..][j].id == edits[j + 1].id;
      CashCheckEditsKeepUnsent(days', edits[1..], k);
    }
  }

  /** A committed save leaves every day it was sent reconciled. */
  lemma {:induction false} CashCheckEditsReconcile(days: map<DayKey, BusinessDay>, edits: seq<CashCheckEdit>, i: nat)
    requires ApplyCashCheckEdits(days, edits).Some?
    requires i < |edits| && edits[i].id in days
    ensures edits[i].id in ApplyCashCheckEdits(days, edits).value && Reconciled(ApplyCashCheckEdits(days, edits).value[edits[i].id])
    decreases |edits|
  {
    var e := edits[0];
    var days' := ApplyCashCheckEdit(days, e).value;
    if i > 0 {
      assert edits[1..][i - 1] == edits[i];
      CashCheckEditsReconcile(days', edits[1..], i - 1);
    } else if j :| 0 <= j < |edits[1..]| && edits[1..][j].id == e.id {
      CashCheckEditsReconcile(days', edits[1..], j);
    } else {
      CashCheckEditsKeepUnsent(days', edits[1..], e.id);
    }
  }

  /** The stored breakdown as the editor sends it back. */
  function AsSubmitted(b: seq<(int, int)>): (s: seq<(NumArg, NumArg)>)
    ensures |s| == |b| && forall i :: 0 <= i < |b| ==> s[i] == (Num(b[i].0), Num(b[i].1))
  {
    seq(|b|, i requires 0 <= i < |b| => (Num(b[i].0), Num(b[i].1)))
  }

  /** Sending a day's stored breakdown back unchanged leaves its closing cash as it was. */
  lemma ResubmittedBreakdownKeepsClosing(days: map<DayKey, BusinessDay>, k: DayKey)
    requires k in days && days[k].cashBreakdown.Some? && BreakdownMatchesClosing(days[k])
    ensures var e := CashCheckEdit(k, Some(AsSubmitted(days[k].cashBreakdown.value)));
      ApplyCashCheckEdit(days, e).Some? && ApplyCashCheckEdit(days, e).value[k].closingCash == days[k].closingCash
  {
    var b := days[k].cashBreakdown.value;
    assert ParseBreakdown(AsSubmitted(b)).value == b;
  }

  /** `save_cash_check_data`: all rows or none. */
  method SaveCashCheckData(reg: Register, edits: seq<CashCheckEdit>) returns (ok: bool)
    requires reg.Valid()
    modifies reg
    ensures reg.Valid() && ForwardOnly(old(reg.days), reg.days) && reg.txs == old(reg.txs)
    ensures ok <==> ApplyCashCheckEdits(old(reg.days), edits).Some?
    ensures ok ==> reg.days == ApplyCashCheckEdits(old(reg.days), edits).value
    ensures !ok ==> reg.days == old(reg.days)
  {
    var days := reg.days;
    var i := 0;
    while i < |edits|
      invariant 0 <= i <= |edits|
      invariant ApplyCashCheckEdits(reg.days, edits) == ApplyCashCheckEdits(days, edits[i..])
    {
      var e := edits[i];
      assert edits[i..][0] == e && edits[i..][1..] == edits[i + 1..];
      if e.id in days {
        var d := days[e.id];
        if e.breakdown.Some? {
          var b := ParseBreakdown(e.breakdown.value);
          if b.None? {
            return false;
          }
          d := d.(cashBreakdown := b, closingCash := Some(BreakdownTotal(b.value)));
        }
        d := d.(expectedCash := Some(d.openingCash + d.totalSales));
        d := d.(cashDiff := Some(d.closingCash.GetOr(0) - d.expectedCash.value));
        days := days[e.id := d];
      }
      i := i + 1;
    }
    assert edits[i..] == [];
    CashCheckEditsKeepConsistent(reg.days, reg.txs, edits);
    reg.days := days;
    ok := true;
  }

  // ---------------------------------------------------------------------
  // save_transaction_log_data
  // ---------------------------------------------------------------------

  /** An edit of one line item, looked up by its id among all transactions. */
  datatype ItemEdit = ItemEdit(id: int, price: Option<NumArg>, category: Option<Option<int>>)

  /** One row of the transaction-log editor: the transaction's position in the log, the cash received if sent, and item edits. */
  datatype TxEdit = TxEdit(id: int, cashReceived: Option<NumArg>, items: seq<ItemEdit>)

  /** Some transaction has a line item with this id. */
  predicate ItemExists(txs: seq<Transaction>, id: int) {
    exists i, j :: 0 <= i < |txs| && 0 <= j < |txs[i].items| && txs[i].items[j].id == id
  }

  /** The item with the edit's price and category written in (a field not sent keeps its value). */
  function EditedItem(it: TxItem, e: ItemEdit): TxItem {
    TxItem(it.id,
      if e.price.Some? && e.price.value.Num? then e.price.value.v else it.price,
      if e.category.Some? then e.category.value else it.category)
  }

  /** Every transaction with the edit applied to its items of that id; nothing else changes. */
  function EditItems(txs: seq<Transaction>, e: ItemEdit): (r: seq<Transaction>)
    ensures |r| == |txs|
    ensures forall i :: 0 <= i < |txs| ==>
      && |r[i].items| == |txs[i].items|
      && r[i].(items := txs[i].items) == txs[i]
      && forall j :: 0 <= j < |txs[i].items| ==>
           r[i].items[j] == if txs[i].items[j].id == e.id then EditedItem(txs[i].items[j], e) else txs[i].items[j]
  {
    seq(|txs|, i requires 0 <= i < |txs| =>
      txs[i].(items := seq(|txs[i].items|, j requires 0 <= j < |txs[i].items| =>
        if txs[i].items[j].id == e.id then EditedItem(txs[i].items[j], e) else txs[i].items[j])))
  }

  /** One item edit: an unknown id is skipped; a price that is not a number aborts the request. */
  function ApplyItemEdit(txs: seq<Transaction>, e: ItemEdit): (r: Option<seq<Transaction>>)
    ensures r.None? <==> ItemExists(txs, e.id) && e.price == Some(NotANumber)
    ensures !ItemExists(txs, e.id) ==> r == Some(txs)
    ensures r.Some? && ItemExists(txs, e.id) ==> r.value == EditItems(txs, e)
  {
    if !ItemExists(txs, e.id) then Some(txs)
    else if e.price == Some(NotANumber) then None
    else Some(EditItems(txs, e))
  }

  /** Item edits keep every item id where it was. */
  lemma EditItemsKeepIds(txs: seq<Transaction>, e: ItemEdit, id: int)
    ensures ItemExists(EditItems(txs, e), id) <==> ItemExists(txs, id)
  {
    var r := EditItems(txs, e);
    if ItemExists(txs, id) {
      var i, j :| 0 <= i < |txs| && 0 <= j < |txs[i].items| && txs[i].items[j].id == id;
      assert r[i].items[j].id == id;
    }
    if ItemExists(r, id) {
      var i, j :| 0 <= i < |r| && 0 <= j < |r[i].items| && r[i].items[j].id == id;
      assert txs[i].items[j].id == id;
    }
  }

  /** The item edits of one row, in order; the whole request aborts as soon as one fails. */
  function ApplyItemEdits(txs: seq<Transaction>, edits: seq<ItemEdit>): (r: Option<seq<Transaction>>)
    ensures r.None? <==> exists i :: 0 <= i < |edits| && ItemExists(txs, edits[i].id) && edits[i].price == Some(NotANumber)
    ensures r.Some? ==> |r.value| == |txs|
    decreases |edits|
  {
    if edits == [] then Some(txs)
    else
      match ApplyItemEdit(txs, edits[0])
      case None => None
      case Some(txs') =>
        var rest := ApplyItemEdits(txs', edits[1..]);
        forall i | 1 <= i < |edits|
          ensures ItemExists(txs', edits[i].id) <==> ItemExists(txs, edits[i].id)
        {
          if txs' != txs { EditItemsKeepIds(txs, edits[0], edits[i].id); }
        }
        assert forall i :: 0 <= i < |edits[1..]| ==> edits[1..][i] == edits[i + 1];
        rest
  }

  /** Transactions agree on everything but their line items. */
  predicate SameExceptItems(a: seq<Transaction>, b: seq<Transaction>) {
    |a| == |b| && forall i :: 0 <= i < |a| ==> b[i].(items := a[i].items) == a[i]
  }

  /** Item edits touch nothing but line items. */
  lemma {:induction false} ItemEditsTouchOnlyItems(txs: seq<Transaction>, edits: seq<ItemEdit>)
    requires ApplyItemEdits(txs, edits).Some?
    ensures SameExceptItems(txs, ApplyItemEdits(txs, edits).value)
    decreases |edits|
  {
    if edits != [] {
      var txs' := ApplyItemEdit(txs, edits[0]).value;
      ItemEditsTouchOnlyItems(txs', edits[1..]);
    }
  }

  /** Sum of the prices of a transaction's line items. */
  function ItemTotal(items: seq<TxItem>): int {
    if items == [] then 0 else ItemTotal(items[..|items| - 1]) + items[|items| - 1].price
  }

  /** The cash received as the row leaves it; None when `float()` raises (a stored NULL that is not overwritten, or a non-number). */
  function CashAfter(stored: Option<int>, sent: Option<NumArg>): Option<int> {
    match sent
    case None => stored
    case Some(NotANumber) => None
    case Some(Num(v)) => Some(v)
  }

  /**
   * One row: an unknown transaction is skipped. Otherwise the cash
   * received and the item edits are written, the amount becomes the sum of
   * the transaction's item prices, the change the cash minus that amount,
   * and the day's sales the sum of its transactions' amounts, with the
   * expected cash and difference recomputed.
   */
  function ApplyTxEdit(days: map<DayKey, BusinessDay>, txs: seq<Transaction>, e: TxEdit): (r: Option<(map<DayKey, BusinessDay>, seq<Transaction>)>)
    ensures r.Some? ==> |r.value.1| == |txs| && r.value.0.Keys == days.Keys
    ensures r.Some? && 0 <= e.id < |txs| ==>
      var t := r.value.1[e.id];
      && t.amount == ItemTotal(t.items)
      && t.cashReceived == CashAfter(txs[e.id].cashReceived, e.cashReceived)
      && t.cashReceived.Some? && t.changeGiven == Some(t.cashReceived.value - t.amount)
      && (t.day in days ==> r.value.0[t.day].totalSales == SalesOf(r.value.1, t.day) && Reconciled(r.value.0[t.day]))
    ensures r.None? ==> 0 <= e.id < |txs|
    ensures !(0 <= e.id < |txs|) ==> r == Some((days, txs))
    ensures r.None? <==> 0 <= e.id < |txs| && (CashAfter(txs[e.id].cashReceived, e.cashReceived).None? || ApplyItemEdits(txs, e.items).None?)
    ensures r.Some? && 0 <= e.id < |txs| ==>
      && r.value.1 == TxEditLog(txs, e)
      && forall k :: k in days && k != txs[e.id].day ==> r.value.0[k] == days[k]
  {
    if !(0 <= e.id < |txs|) then Some((days, txs))
    else if CashAfter(txs[e.id].cashReceived, e.cashReceived).None? || ApplyItemEdits(txs, e.items).None? then None
    else
      var txs2 := TxEditLog(txs, e);
      var k := txs[e.id].day;
      if k in days then
        Some((days[k := Recompute(days[k].(totalSales := SalesOf(txs2, k)))], txs2))
      else Some((days, txs2))
  }

  function ApplyTxEdits(days: map<DayKey, BusinessDay>, txs: seq<Transaction>, edits: seq<TxEdit>): Option<(map<DayKey, BusinessDay>, seq<Transaction>)>
    decreases |edits|
  {
    if edits == [] then Some((days, txs))
    else
      match ApplyTxEdit(days, txs, edits[0])
      case None => None
      case Some(st) => ApplyTxEdits(st.0, st.1, edits[1..])
  }

  /** Two logs that agree on every transaction's day and item count give every day the same counts. */
  lemma {:induction false} LogCountsAgree(a: seq<Transaction>, b: seq<Transaction>, k: DayKey)
    requires |a| == |b|
    requires forall i :: 0 <= i < |a| ==> a[i].day == b[i].day && a[i].itemCount == b[i].itemCount
    ensures TxCount(a, k) == TxCount(b, k) && ItemsOf(a, k) == ItemsOf(b, k)
  {
    if a != [] {
      LogCountsAgree(a[..|a| - 1], b[..|b| - 1], k);
    }
  }

  /** Two logs that agree on every transaction's day, and on the amounts of day `k`'s transactions, give day `k` the same sales. */
  lemma {:induction false} LogSalesAgree(a: seq<Transaction>, b: seq<Transaction>, k: DayKey)
    requires |a| == |b|
    requires forall i :: 0 <= i < |a| ==> a[i].day == b[i].day
    requires forall i :: 0 <= i < |a| && a[i].day == k ==> a[i].amount == b[i].amount
    ensures SalesOf(a, k) == SalesOf(b, k)
  {
    if a != [] {
      LogSalesAgree(a[..|a| - 1], b[..|b| - 1], k);
    }
  }

  /**
   * Re-summing one day's sales after its transactions changed amounts
   * (days and item counts unchanged, other days' amounts unchanged) keeps
   * the register consistent and moves no status.
   */
  lemma RecountKeepsConsistent(days: map<DayKey, BusinessDay>, txs: seq<Transaction>, txs2: seq<Transaction>, k: DayKey)
    requires Consistent(days, txs) && k in days && |txs2| == |txs|
    requires forall i :: 0 <= i < |txs| ==> txs2[i].day == txs[i].day && txs2[i].itemCount == txs[i].itemCount
    requires forall i :: 0 <= i < |txs| && txs[i].day != k ==> txs2[i].amount == txs[i].amount
    ensures var days2 := days[k := Recompute(days[k].(totalSales := SalesOf(txs2, k)))];
      Consistent(days2, txs2) && ForwardOnly(days, days2)
      && forall k' :: k' in days ==> days2[k'] == days[k'] || Reconciled(days2[k'])
  {
    var d := Recompute(days[k].(totalSales := SalesOf(txs2, k)));
    var days2 := days[k := d];
    forall k' | k' in days
      ensures CountersMatchLog(txs2, k', days2[k'])
    {
      RecountedCounters(days, txs, txs2, k, k');
    }
    assert DayValid(days[k]);
    assert DayValid(d);
    assert forall i :: 0 <= i < |txs2| ==> txs2[i].day in days;
    ReplaceDayKeepsConsistent(days, txs, txs2, k, d);
  }

  /** After the recount every day's counters are still its log totals. */
  lemma RecountedCounters(days: map<DayKey, BusinessDay>, txs: seq<Transaction>, txs2: seq<Transaction>, k: DayKey, k': DayKey)
    requires k in days && k' in days && CountersMatchLog(txs, k', days[k']) && |txs2| == |txs|
    requires forall i :: 0 <= i < |txs| ==> txs2[i].day == txs[i].day && txs2[i].itemCount == txs[i].itemCount
    requires forall i :: 0 <= i < |txs| && txs[i].day != k ==> txs2[i].amount == txs[i].amount
    ensures CountersMatchLog(txs2, k', days[k := Recompute(days[k].(totalSales := SalesOf(txs2, k)))][k'])
  {
    LogCountsAgree(txs, txs2, k');
    if k' != k {
      LogSalesAgree(txs, txs2, k');
    }
  }

  /**
   * A committed row of the transaction-log editor keeps the register
   * consistent (every day's sales is still the sum of its transactions'
   * amounts), moves no status, and leaves each day unchanged or reconciled.
   */
  lemma TxEditKeepsConsistent(days: map<DayKey, BusinessDay>, txs: seq<Transaction>, e: TxEdit)
    requires Consistent(days, txs)
    requires ApplyTxEdit(days, txs, e).Some?
    ensures var r := ApplyTxEdit(days, txs, e).value;
      && Consistent(r.0, r.1) && ForwardOnly(days, r.0)
      && forall k :: k in days ==> r.0[k] == days[k] || Reconciled(r.0[k])
  {
    if 0 <= e.id < |txs| {
      RecountKeepsConsistent(days, txs, TxEditLog(txs, e), txs[e.id].day);
    }
  }

  /** The log after one committed row of the transaction-log editor. */
  function TxEditLog(txs: seq<Transaction>, e: TxEdit): (txs2: seq<Transaction>)
    requires 0 <= e.id < |txs| && ApplyItemEdits(txs, e.items).Some?
    requires CashAfter(txs[e.id].cashReceived, e.cashReceived).Some?
    ensures |txs2| == |txs|
    ensures forall i :: 0 <= i < |txs| ==> txs2[i].day == txs[i].day && txs2[i].itemCount == txs[i].itemCount
    ensures forall i :: 0 <= i < |txs| && txs[i].day != txs[e.id].day ==> txs2[i].amount == txs[i].amount
    ensures var t := txs2[e.id];
      && t.amount == ItemTotal(t.items)
      && t.cashReceived == CashAfter(txs[e.id].cashReceived, e.cashReceived)
      && t.changeGiven == Some(t.cashReceived.value - t.amount)
    ensures txs2[e.id].items == ApplyItemEdits(txs, e.items).value[e.id].items
    ensures forall i :: 0 <= i < |txs| && i != e.id ==> txs2[i] == ApplyItemEdits(txs, e.items).value[i]
  {
    var txs1 := ApplyItemEdits(txs, e.items).value;
    ItemEditsTouchOnlyItems(txs, e.items);
    var t := txs1[e.id];
    var cash := CashAfter(txs[e.id].cashReceived, e.cashReceived);
    var amount := ItemTotal(t.items);
    txs1[e.id := t.(cashReceived := cash, amount := amount, changeGiven := Some(cash.value - amount))]
  }

  /** Statuses that only move forward in two steps only move forward overall. */
  lemma ForwardOnlyTransitive(a: map<DayKey, BusinessDay>, b: map<DayKey, BusinessDay>, c: map<DayKey, BusinessDay>)
    requires ForwardOnly(a, b) && ForwardOnly(b, c)
    ensures ForwardOnly(a, c)
  {
  }

  /** A committed transaction-log save keeps the register consistent, moves no status, and leaves each day unchanged or reconciled. */
  lemma {:induction false} TxEditsKeepConsistent(days: map<DayKey, BusinessDay>, txs: seq<Transaction>, edits: seq<TxEdit>)
    requires Consistent(days, txs)
    requires ApplyTxEdits(days, txs, edits).Some?
    ensures var r := ApplyTxEdits(days, txs, edits).value;
      && Consistent(r.0, r.1) && ForwardOnly(days, r.0)
      && forall k :: k in days ==> r.0[k] == days[k] || Reconciled(r.0[k])
    decreases |edits|
  {
    if edits != [] {
      var st := ApplyTxEdit(days, txs, edits[0]).value;
      TxEditKeepsConsistent(days, txs, edits[0]);
      TxEditsKeepConsistent(st.0, st.1, edits[1..]);
      var r := ApplyTxEdits(st.0, st.1, edits[1..]).value;
      ForwardOnlyTransitive(days, st.0, r.0);
    }
  }

  /** The loop over one row's item edits: each edit in turn, stopping at a price that is not a number. */
  method EditItemsInTurn(txs: seq<Transaction>, items: seq<ItemEdit>) returns (ok: bool, txs1: seq<Transaction>)
    ensures ok <==> ApplyItemEdits(txs, items).Some?
    ensures ok ==> txs1 == ApplyItemEdits(txs, items).value
  {
    txs1 := txs;
    var j := 0;
    while j < |items|
      invariant 0 <= j <= |items|
      invariant ApplyItemEdits(txs, items) == ApplyItemEdits(txs1, items[j..])
    {
      var ie := items[j];
      assert items[j..][0] == ie && items[j..][1..] == items[j + 1..];
      if ItemExists(txs1, ie.id) {
        if ie.price == Some(NotANumber) {
          return false, txs1;
        }
        txs1 := EditItems(txs1, ie);
      }
      j := j + 1;
    }
    assert items[j..] == [];
    ok := true;
  }

  /**
   * One row of the transaction-log editor: the cash received, then each
   * item edit in turn (a non-numeric price aborts the save), then the
   * row's amount and change, then the day's sales and reconciliation.
   */
  method CommitTxEdit(days: map<DayKey, BusinessDay>, txs: seq<Transaction>, e: TxEdit)
    returns (ok: bool, days2: map<DayKey, BusinessDay>, txs2: seq<Transaction>)
    ensures ok <==> ApplyTxEdit(days, txs, e).Some?
    ensures ok ==> (days2, txs2) == ApplyTxEdit(days, txs, e).value
  {
    days2, txs2 := days, txs;
    if !(0 <= e.id < |txs|) {
      return true, days2, txs2;
    }
    var cash := CashAfter(txs[e.id].cashReceived, e.cashReceived);
    if cash.None? {
      return false, days2, txs2;
    }
    var itemsOk, txs1 := EditItemsInTurn(txs, e.items);
    if !itemsOk {
      return false, days2, txs2;
    }
    var t := txs1[e.id];
    var amount := ItemTotal(t.items);
    txs2 := txs1[e.id := t.(cashReceived := cash, amount := amount, changeGiven := Some(cash.value - amount))];
    assert txs2 == TxEditLog(txs, e);
    var k := t.day;
    if k in days {
      var d := days[k].(totalSales := SalesOf(txs2, k));
      d := d.(expectedCash := Some(d.openingCash + d.totalSales));
      d := d.(cashDiff := Some(d.closingCash.GetOr(0) - d.expectedCash.value));
      days2 := days[k := d];
    }
    ok := true;
  }

  /** `save_transaction_log_data`: all rows or none. */
  method SaveTransactionLogData(reg: Register, edits: seq<TxEdit>) returns (ok: bool)
    requires reg.Valid()
    modifies reg
    ensures reg.Valid() && ForwardOnly(old(reg.days), reg.days)
    ensures ok <==> ApplyTxEdits(old(reg.days), old(reg.txs), edits).Some?
    ensures ok ==> (reg.days, reg.txs) == ApplyTxEdits(old(reg.days), old(reg.txs), edits).value
    ensures !ok ==> reg.days == old(reg.days) && reg.txs == old(reg.txs)
  {
    var days := reg.days;
    var txs := reg.txs;
    var i := 0;
    while i < |edits|
      invariant 0 <= i <= |edits|
      invariant reg.days == old(reg.days) && reg.txs == old(reg.txs)
      invariant ApplyTxEdits(reg.days, reg.txs, edits) == ApplyTxEdits(days, txs, edits[i..])
    {
      assert edits[i..][0] == edits[i] && edits[i..][1..] == edits[i + 1..];
      var committed;
      committed, days, txs := CommitTxEdit(days, txs, edits[i]);
      if !committed {
        return false;
      }
      i := i + 1;
    }
    assert edits[i..] == [];
    TxEditsKeepConsistent(reg.days, reg.txs, edits);
    reg.days := days;
    reg.txs := txs;
    ok := true;
  }

  // ---------------------------------------------------------------------
  // save_daily_cash_summary_data
  // ---------------------------------------------------------------------

  /** Donations and other income are totals of the transaction log: this editor always refuses (400) and changes nothing. */
  method SaveDailyCashSummaryData(reg: Register) returns (ok: bool)
    ensures !ok
  {
    ok := false;
  }
}
