/**
 * The point-of-sale calculator of the cashier screen: a keypad that builds
 * an arithmetic expression, category buttons that turn the expression into
 * receipt lines, a two-phase undo key, payment mode with its checkout
 * button, and the expansion of the receipt into the unit list that is sent
 * to the server. Amounts are whole NT$.
 */
module Pos {
  import opened Wrappers
  import Text

  /** One receipt line: `quantity` units at `unitPrice`, `price` their total. */
  datatype LineItem = LineItem(
    price: int, unitPrice: int, quantity: int,
    categoryId: int, categoryName: string, displayText: string)

  /** One entry of the list sent at checkout: a single unit. */
  datatype SentItem = SentItem(price: int, categoryId: int)

  predicate IsOperator(t: string) { t == "+" || t == "-" || t == "*" || t == "/" }

  /** The values the keypad's number buttons carry. */
  predicate IsNumberKey(v: string) { v == "00" || v == "." || (|v| == 1 && Text.IsDigit(v[0])) }

  /** Text typed on the keypad: digits and decimal points only. */
  predicate IsKeyed(s: string) { forall i :: 0 <= i < |s| ==> Text.IsDigit(s[i]) || s[i] == '.' }

  predicate AtMostOneDot(s: string) { forall i, j :: 0 <= i < j < |s| && s[i] == '.' ==> s[j] != '.' }

  /** The pending expression: operands at even positions, operators at odd ones, so it ends with an operator. */
  predicate Alternates(e: seq<string>) {
    |e| % 2 == 0 && forall i :: 0 <= i < |e| ==> (IsOperator(e[i]) <==> i % 2 == 1)
  }

  /** `s.includes(w)`. */
  predicate HasInfix(s: string, w: string)
    decreases |s|
  {
    |w| <= |s| && (s[..|w|] == w || (s != [] && HasInfix(s[1..], w)))
  }

  /** A discount category: its name contains "折扣" ("discount"). */
  predicate IsDiscount(name: string) { HasInfix(name, "\U{6298}\U{6263}") }

  /** The test `/[+\-/]/` made on each side of a product. */
  predicate HasArithmetic(p: string) { '+' in p || '-' in p || '/' in p }

  function Abs(x: int): int { if x < 0 then -x else x }

  /**
   * The receipt line a category button makes of the typed expression
   * `full`, or None when nothing is added. `eval` stands for the
   * expression evaluator, None where it throws. An expression `q * p` with
   * no other operator and a positive quantity `q` makes `q` units of `p`;
   * anything else is evaluated whole as one unit. A discount category
   * negates the unit price; a non-discount line worth zero is dropped.
   */
  function CategoryItem(full: string, categoryId: int, categoryName: string, eval: string -> Option<int>): (r: Option<LineItem>)
    ensures r.Some? ==> r.value.quantity >= 1 && r.value.price == r.value.quantity * r.value.unitPrice
    ensures r.Some? ==> r.value.categoryId == categoryId && r.value.categoryName == categoryName
    ensures r.Some? && IsDiscount(categoryName) ==> r.value.unitPrice <= 0 && r.value.price <= 0
    ensures r.Some? && !IsDiscount(categoryName) ==> r.value.price != 0
    ensures '*' !in full ==>
      (r.Some? <==> eval(full).Some? && (IsDiscount(categoryName) || eval(full).value != 0))
    ensures '*' !in full && r.Some? ==>
      r.value.quantity == 1 && r.value.unitPrice == (if IsDiscount(categoryName) then -Abs(eval(full).value) else eval(full).value)
  {
    var parts := Text.Split(full, '*');
    var product := '*' in full && |parts| == 2 && !HasArithmetic(parts[0]) && !HasArithmetic(parts[1]);
    if product && (eval(parts[0]).None? || eval(parts[1]).None?) then None
    else
      var priced: Option<(int, int, string)> :=
        if product && eval(parts[0]).value > 0 then
          var q := eval(parts[0]).value;
          var p := eval(parts[1]).value;
          Some((q, p, Text.IntToString(q) + "*" + Text.IntToString(p)))
        else if eval(full).None? then None
        else Some((1, eval(full).value, Text.IntToString(eval(full).value)));
      if priced.None? then None
      else
        var (q, p, text) := priced.value;
        PricedItem(q, p, text, categoryId, categoryName)
  }

  /** The line for `q` units at the typed price `p`, negated for a discount; None for a non-discount line worth zero. */
  function PricedItem(q: int, p: int, text: string, categoryId: int, categoryName: string): (r: Option<LineItem>)
    requires q >= 1
    ensures r.Some? <==> IsDiscount(categoryName) || p != 0
    ensures r.Some? ==> r.value.quantity == q && r.value.price == q * r.value.unitPrice
    ensures r.Some? ==> r.value.unitPrice == (if IsDiscount(categoryName) then -Abs(p) else p)
    ensures r.Some? ==> r.value.categoryId == categoryId && r.value.categoryName == categoryName
    ensures r.Some? && IsDiscount(categoryName) ==> r.value.unitPrice <= 0 && r.value.price <= 0
    ensures r.Some? && !IsDiscount(categoryName) ==> r.value.price != 0
  {
    var unit := if IsDiscount(categoryName) then -Abs(p) else p;
    var total := q * unit;
    PositiveTimes(q, unit);
    if total == 0 && !IsDiscount(categoryName) then None
    else Some(LineItem(total, unit, q, categoryId, categoryName, text))
  }

  /** Multiplying by a positive count keeps the sign, and zero only from zero. */
  lemma PositiveTimes(q: int, u: int)
    requires q >= 1
    ensures u <= 0 ==> q * u <= 0
    ensures q * u == 0 <==> u == 0
  {
    if u < 0 {
      assert q * u <= u;
    } else if u > 0 {
      assert q * u >= u;
    }
  }

  /**
   * A product `a * b` with a positive quantity `a` and no other operator
   * sells `a` units at the price `b` evaluates to (negated for a discount).
   */
  lemma ProductEntry(a: string, b: string, categoryId: int, categoryName: string, eval: string -> Option<int>)
    requires '*' !in a && '*' !in b && !HasArithmetic(a) && !HasArithmetic(b)
    requires eval(a).Some? && eval(a).value > 0 && eval(b).Some?
    ensures CategoryItem(a + "*" + b, categoryId, categoryName, eval).Some? <==>
      IsDiscount(categoryName) || eval(b).value != 0
    ensures CategoryItem(a + "*" + b, categoryId, categoryName, eval).Some? ==>
      var item := CategoryItem(a + "*" + b, categoryId, categoryName, eval).value;
      item.quantity == eval(a).value
      && item.unitPrice == (if IsDiscount(categoryName) then -Abs(eval(b).value) else eval(b).value)
  {
    Text.SplitWithoutSeparator(b, '*');
    Text.SplitAtFirst(a, '*', b);
    assert Text.Split(a + "*" + b, '*') == [a, b];
  }

  /** The units `sendTransaction` lists for a line: `n` copies. */
  function Repeat(s: SentItem, n: int): (r: seq<SentItem>)
    ensures |r| == if n > 0 then n else 0
    ensures forall i :: 0 <= i < |r| ==> r[i] == s
    decreases n
  {
    if n <= 0 then [] else Repeat(s, n - 1) + [s]
  }

  /** Each receipt line repeated `quantity` times at its unit price, in receipt order. */
  function Expanded(items: seq<LineItem>): seq<SentItem> {
    if items == [] then []
    else
      var last := items[|items| - 1];
      Expanded(items[..|items| - 1]) + Repeat(SentItem(last.unitPrice, last.categoryId), last.quantity)
  }

  function ItemsTotal(items: seq<LineItem>): int {
    if items == [] then 0 else ItemsTotal(items[..|items| - 1]) + items[|items| - 1].price
  }

  function TotalQuantity(items: seq<LineItem>): int {
    if items == [] then 0
    else
      var q := items[|items| - 1].quantity;
      TotalQuantity(items[..|items| - 1]) + (if q > 0 then q else 0)
  }

  function SentTotal(sent: seq<SentItem>): int {
    if sent == [] then 0 else SentTotal(sent[..|sent| - 1]) + sent[|sent| - 1].price
  }

  lemma {:induction false} SentTotalAppend(a: seq<SentItem>, b: seq<SentItem>)
    ensures SentTotal(a + b) == SentTotal(a) + SentTotal(b)
    decreases |b|
  {
    if b != [] {
      SentTotalAppend(a, b[..|b| - 1]);
      assert (a + b)[..|a + b| - 1] == a + b[..|b| - 1];
    } else {
      assert a + b == a;
    }
  }

  lemma {:induction false} RepeatTotal(s: SentItem, n: nat)
    ensures SentTotal(Repeat(s, n)) == n * s.price
  {
    if n > 0 {
      RepeatTotal(s, n - 1);
      assert Repeat(s, n)[..n - 1] == Repeat(s, n - 1);
    }
  }

  /** The sent list has one entry per unit: its length is the sum of the quantities. */
  lemma {:induction false} ExpandedLength(items: seq<LineItem>)
    ensures |Expanded(items)| == TotalQuantity(items)
  {
    if items != [] {
      ExpandedLength(items[..|items| - 1]);
    }
  }

  /** The sent list is worth what the receipt is worth. */
  lemma {:induction false} ExpandedTotal(items: seq<LineItem>)
    requires forall i :: 0 <= i < |items| ==> items[i].quantity >= 0 && items[i].price == items[i].quantity * items[i].unitPrice
    ensures SentTotal(Expanded(items)) == ItemsTotal(items)
  {
    if items != [] {
      var init := items[..|items| - 1];
      var last := items[|items| - 1];
      var s := SentItem(last.unitPrice, last.categoryId);
      ExpandedTotal(init);
      SentTotalAppend(Expanded(init), Repeat(s, last.quantity));
      RepeatTotal(s, last.quantity);
    }
  }

  /** `sendTransaction`'s item expansion. */
  method ExpandItems(items: seq<LineItem>) returns (out: seq<SentItem>)
    ensures out == Expanded(items)
  {
    out := [];
    var i := 0;
    while i < |items|
      invariant 0 <= i <= |items|
      invariant out == Expanded(items[..i])
    {
      var item := items[i];
      var s := SentItem(item.unitPrice, item.categoryId);
      var j := 0;
      while j < item.quantity
        invariant 0 <= j <= (if item.quantity > 0 then item.quantity else 0)
        invariant out == Expanded(items[..i]) + Repeat(s, j)
        decreases item.quantity - j
      {
        out := out + [s];
        j := j + 1;
      }
      assert Repeat(s, j) == Repeat(s, item.quantity);
      assert items[..i + 1][..i] == items[..i];
      i := i + 1;
    }
    assert items[..i] == items;
  }

  /**
   * The change shown when a payment is booked as other income instead: the
   * amount paid when it is a number covering the total, otherwise the
   * total itself is taken as paid, so the change is never negative.
   */
  function OtherIncomeChange(paid: Option<int>, total: int): (change: int)
    ensures change >= 0
    ensures paid.Some? && paid.value >= total ==> change == paid.value - total
    ensures paid.None? || paid.value < total ==> change == 0
  {
    var finalPaid := if paid.None? || paid.value < total then total else paid.value;
    finalPaid - total
  }

  class Calculator {
    var expression: seq<string>
    var currentInput: string
    var items: seq<LineItem>
    var transactionTotal: int
    var inPaymentMode: bool
    var isReadyForNewInput: bool
    /** The ten-second reset timer after a sale is running. */
    var resetPending: bool
    /** The expression evaluator; None where it throws. */
    const eval: string -> Option<int>
    /** `parseFloat` of the typed amount; None for NaN. */
    const parseAmount: string -> Option<int>

    ghost predicate Valid()
      reads this
    {
      Alternates(expression)
      && currentInput != [] && AtMostOneDot(currentInput)
      && (forall i :: 0 <= i < |items| ==>
            items[i].quantity >= 1 && items[i].price == items[i].quantity * items[i].unitPrice)
      && (!inPaymentMode ==>
            IsKeyed(currentInput) && |currentInput| <= 15 && transactionTotal == 0 && !isReadyForNewInput)
    }

    predicate IsInitial()
      reads this
    {
      expression == [] && currentInput == "0" && items == [] && transactionTotal == 0
      && !inPaymentMode && !isReadyForNewInput && !resetPending
    }

    // The state a key handler works on: a pending reset is carried out first.
    function SeenExpression(): seq<string> reads this { if resetPending then [] else expression }
    function SeenInput(): string reads this { if resetPending then "0" else currentInput }
    function SeenItems(): seq<LineItem> reads this { if resetPending then [] else items }
    function SeenTotal(): int reads this { if resetPending then 0 else transactionTotal }
    predicate SeenPaying() reads this { !resetPending && inPaymentMode }
    predicate SeenReady() reads this { !resetPending && isReadyForNewInput }

    /** The running subtotal: the receipt plus the typed expression (ignored when it does not evaluate). */
    function CurrentTotal(): int
      reads this
    {
      ItemsTotal(items) + eval(Text.Join(expression + [currentInput], " ")).GetOr(0)
    }

    /** The checkout button is enabled: the typed amount is a number covering the total. */
    predicate CheckoutEnabled()
      reads this
    {
      inPaymentMode && parseAmount(currentInput).Some? && parseAmount(currentInput).value >= transactionTotal
    }

    constructor(eval: string -> Option<int>, parseAmount: string -> Option<int>)
      ensures Valid() && IsInitial()
      ensures this.eval == eval && this.parseAmount == parseAmount
    {
      expression := [];
      currentInput := "0";
      items := [];
      transactionTotal := 0;
      inPaymentMode := false;
      isReadyForNewInput := false;
      resetPending := false;
      this.eval := eval;
      this.parseAmount := parseAmount;
    }

    method Reset()
      modifies this
      ensures Valid() && IsInitial()
    {
      resetPending := false;
      inPaymentMode := false;
      isReadyForNewInput := false;
      expression := [];
      currentInput := "0";
      items := [];
      transactionTotal := 0;
    }

    /** Every key handler first carries out a pending reset. */
    method InterruptReset()
      requires Valid()
      modifies this
      ensures Valid() && !resetPending
      ensures expression == old(SeenExpression()) && currentInput == old(SeenInput()) && items == old(SeenItems())
      ensures transactionTotal == old(SeenTotal()) && inPaymentMode == old(SeenPaying())
      ensures isReadyForNewInput == old(SeenReady())
    {
      if resetPending {
        Reset();
      }
    }

    method HandleNumber(value: string)
      requires Valid() && IsNumberKey(value)
      modifies this
      ensures Valid() && !resetPending && !isReadyForNewInput
      ensures expression == old(SeenExpression()) && items == old(SeenItems())
      ensures transactionTotal == old(SeenTotal()) && inPaymentMode == old(SeenPaying())
      ensures old(SeenReady()) ==> currentInput == (if value == "." then "0." else value)
      ensures !old(SeenReady()) ==>
        var s := old(SeenInput());
        if s == "0" && value != "00" && value != "." then currentInput == value
        else if (value == "." && '.' in s) || (s == "0" && value == "00") || |s| > 13 then currentInput == s
        else currentInput == s + value
    {
      InterruptReset();
      if isReadyForNewInput {
        currentInput := if value == "." then "0." else value;
        isReadyForNewInput := false;
      } else if currentInput == "0" && value != "00" && value != "." {
        currentInput := value;
      } else {
        if value == "." && '.' in currentInput { return; }
        if currentInput == "0" && value == "00" { return; }
        if |currentInput| > 13 { return; }
        var s := currentInput;
        currentInput := s + value;
        assert AtMostOneDot(currentInput) by {
          forall i, j | 0 <= i < j < |currentInput| && currentInput[i] == '.'
            ensures currentInput[j] != '.'
          {
            if j >= |s| {
              assert i < |s| ==> s[i] == '.';
              assert value == "." ==> '.' !in s;
            }
          }
        }
      }
    }

    method HandleOperator(op: string)
      requires Valid() && IsOperator(op)
      modifies this
      ensures Valid() && !resetPending
      ensures items == old(SeenItems()) && transactionTotal == old(SeenTotal())
      ensures inPaymentMode == old(SeenPaying()) && isReadyForNewInput == old(SeenReady())
      ensures old(SeenPaying()) ==> expression == old(SeenExpression()) && currentInput == old(SeenInput())
      ensures !old(SeenPaying()) && old(SeenInput()) == "0" && old(SeenExpression()) != [] ==>
        expression == old(SeenExpression())[..|old(SeenExpression())| - 1] + [op] && currentInput == "0"
      ensures !old(SeenPaying()) && (old(SeenInput()) != "0" || old(SeenExpression()) == []) ==>
        expression == old(SeenExpression()) + [old(SeenInput()), op] && currentInput == "0"
    {
      InterruptReset();
      if inPaymentMode { return; }
      if currentInput == "0" && |expression| > 0 && IsOperator(expression[|expression| - 1]) {
        expression := expression[|expression| - 1 := op];
      } else {
        assert !IsOperator(currentInput) by {
          assert Text.IsDigit(currentInput[0]) || currentInput[0] == '.';
        }
        expression := expression + [currentInput, op];
        currentInput := "0";
      }
    }

    method HandleCategory(categoryId: int, categoryName: string)
      requires Valid()
      modifies this
      ensures Valid() && !resetPending
      ensures transactionTotal == old(SeenTotal()) && inPaymentMode == old(SeenPaying())
      ensures isReadyForNewInput == old(SeenReady())
      ensures var item := CategoryItem(Text.Join(old(SeenExpression()) + [old(SeenInput())], " "), categoryId, categoryName, eval);
        if old(SeenPaying()) || item.None? then
          expression == old(SeenExpression()) && currentInput == old(SeenInput()) && items == old(SeenItems())
        else
          items == old(SeenItems()) + [item.value] && expression == [] && currentInput == "0"
    {
      InterruptReset();
      if inPaymentMode { return; }
      var item := CategoryItem(Text.Join(expression + [currentInput], " "), categoryId, categoryName, eval);
      if item.None? { return; }
      items := items + [item.value];
      expression := [];
      currentInput := "0";
    }

    method HandleUndo()
      requires Valid()
      modifies this
      ensures Valid() && !resetPending
      ensures transactionTotal == old(SeenTotal()) && inPaymentMode == old(SeenPaying())
      ensures isReadyForNewInput == old(SeenReady())
      ensures old(SeenPaying()) ==>
        expression == old(SeenExpression()) && currentInput == old(SeenInput()) && items == old(SeenItems())
      ensures !old(SeenPaying()) && (old(SeenInput()) != "0" || old(SeenExpression()) != []) ==>
        expression == [] && currentInput == "0" && items == old(SeenItems())
      ensures !old(SeenPaying()) && old(SeenInput()) == "0" && old(SeenExpression()) == [] ==>
        expression == [] && currentInput == "0"
        && items == (if old(SeenItems()) == [] then [] else old(SeenItems())[..|old(SeenItems())| - 1])
    {
      InterruptReset();
      if inPaymentMode { return; }
      if currentInput != "0" || |expression| > 0 {
        currentInput := "0";
        expression := [];
      } else if |items| > 0 {
        items := items[..|items| - 1];
      }
    }

    method HandleBackspace()
      requires Valid()
      modifies this
      ensures Valid() && !resetPending
      ensures expression == old(SeenExpression()) && items == old(SeenItems())
      ensures transactionTotal == old(SeenTotal()) && inPaymentMode == old(SeenPaying())
      ensures isReadyForNewInput == old(SeenReady())
      ensures currentInput == if |old(SeenInput())| > 1 then old(SeenInput())[..|old(SeenInput())| - 1] else "0"
    {
      InterruptReset();
      if |currentInput| > 1 {
        currentInput := currentInput[..|currentInput| - 1];
      } else {
        currentInput := "0";
      }
    }

    method EnterPaymentMode()
      requires Valid()
      modifies this
      ensures Valid()
      ensures inPaymentMode && isReadyForNewInput
      ensures transactionTotal == old(CurrentTotal()) && currentInput == Text.IntToString(transactionTotal)
      ensures expression == old(expression) && items == old(items) && resetPending == old(resetPending)
    {
      inPaymentMode := true;
      isReadyForNewInput := true;
      transactionTotal := CurrentTotal();
      currentInput := Text.IntToString(transactionTotal);
    }

    /**
     * The checkout button: when enabled, the expanded receipt is sent, the
     * change is shown and the reset timer starts. Nothing disables the
     * button meanwhile, so it stays enabled until the reset.
     */
    method Checkout() returns (sent: Option<seq<SentItem>>, change: int)
      requires Valid()
      modifies this
      ensures Valid()
      ensures sent.Some? <==> old(CheckoutEnabled())
      ensures sent.Some? ==>
        CheckoutEnabled() && resetPending && sent.value == Expanded(items)
        && change == parseAmount(currentInput).value - transactionTotal && change >= 0
      ensures sent.None? ==> resetPending == old(resetPending)
      ensures expression == old(expression) && currentInput == old(currentInput) && items == old(items)
      ensures transactionTotal == old(transactionTotal) && inPaymentMode == old(inPaymentMode)
      ensures isReadyForNewInput == old(isReadyForNewInput)
    {
      if !CheckoutEnabled() {
        return None, 0;
      }
      var paid := parseAmount(currentInput).value;
      var body := ExpandItems(items);
      sent := Some(body);
      change := paid - transactionTotal;
      resetPending := true;
    }

    /**
     * The donation / other-income buttons. Outside payment mode the typed
     * amount is booked when it is a positive number; in payment mode the
     * whole transaction total is booked instead of a sale.
     */
    method HandleOtherIncome() returns (sent: Option<int>, change: int)
      requires Valid()
      modifies this
      ensures Valid() && change >= 0
      ensures expression == old(SeenExpression()) && currentInput == old(SeenInput()) && items == old(SeenItems())
      ensures transactionTotal == old(SeenTotal()) && inPaymentMode == old(SeenPaying())
      ensures isReadyForNewInput == old(SeenReady())
      ensures resetPending <==> sent.Some?
      ensures !old(SeenPaying()) ==>
        var amount := parseAmount(old(SeenInput()));
        (sent.Some? <==> amount.Some? && amount.value > 0) && (sent.Some? ==> sent.value == amount.value)
      ensures old(SeenPaying()) ==>
        sent == Some(old(SeenTotal())) && change == OtherIncomeChange(parseAmount(old(SeenInput())), old(SeenTotal()))
    {
      InterruptReset();
      if !inPaymentMode {
        var amount := parseAmount(currentInput);
        if amount.None? || amount.value <= 0 {
          return None, 0;
        }
        sent := Some(amount.value);
        change := 0;
        resetPending := true;
      } else {
        sent := Some(transactionTotal);
        change := OtherIncomeChange(parseAmount(currentInput), transactionTotal);
        resetPending := true;
      }
    }
  }
}
