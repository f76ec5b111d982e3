/**
 * The periodic A/B comparison of the report page: the grouped figures of
 * two periods, merged into one line per group key in ascending key order.
 */
module ReportPeriods {
  import opened Wrappers
  import opened Text

  /** The SUM(total_sales) and SUM(total_transactions) of one period group; SUM over no non-NULL value is NULL. */
  datatype PeriodFigures = PeriodFigures(sales: Option<int>, transactions: Option<int>)

  /** The grouping of `get_period_data`: by year, by year and quarter, or by year and month. */
  datatype TimeUnit = YearUnit | QuarterUnit | MonthUnit

  /** The number of group columns the query selects for a time unit. */
  function KeyWidth(unit: TimeUnit): nat {
    if unit == YearUnit then 1 else 2
  }

  /** One row of `get_period_data`: the group columns, then the two sums. */
  datatype PeriodRow = PeriodRow(key: seq<int>, figures: PeriodFigures)

  /** Every row's group key has the width its time unit selects. */
  predicate KeysOfWidth(unit: TimeUnit, data: seq<PeriodRow>) {
    forall i :: 0 <= i < |data| ==> |data[i].key| == KeyWidth(unit)
  }

  /** `{tuple(row[:-2]): row[-2:] for row in data}`: a later row with the same key overrides an earlier one. */
  function GroupDict(data: seq<PeriodRow>): (d: map<seq<int>, PeriodFigures>)
    ensures forall i :: 0 <= i < |data| ==> data[i].key in d
    ensures forall k :: k in d ==> exists i :: 0 <= i < |data| && data[i].key == k
  {
    if data == [] then map[]
    else
      var n := |data| - 1;
      var init := data[..n];
      var d := GroupDict(init);
      var r := d[data[n].key := data[n].figures];
      forall k | k in r
        ensures exists i :: 0 <= i < |data| && data[i].key == k
      {
        if k != data[n].key {
          var i :| 0 <= i < |init| && init[i].key == k;
          assert data[i].key == k;
        }
      }
      r
  }

  /** The figures a key maps to are those of the last row with that key. */
  lemma {:induction false} GroupDictLastWins(data: seq<PeriodRow>, i: int)
    requires 0 <= i < |data| && LastOfKey(data, i)
    ensures GroupDict(data)[data[i].key] == data[i].figures
    decreases |data|
  {
    var n := |data| - 1;
    if i < n {
      var init := data[..n];
      assert init[i] == data[i];
      GroupDictLastWins(init, i);
    }
  }

  /** No later row has the same key as row `i`. */
  predicate LastOfKey(data: seq<PeriodRow>, i: int)
    requires 0 <= i < |data|
  {
    forall j :: i < j < |data| ==> data[j].key != data[i].key
  }

  /** The group keys of the rows, in row order. */
  function KeysOf(data: seq<PeriodRow>): (keys: seq<seq<int>>)
    ensures |keys| == |data| && forall i :: 0 <= i < |data| ==> keys[i] == data[i].key
  {
    seq(|data|, i requires 0 <= i < |data| => data[i].key)
  }

  /**
   * Python's order on tuples of integers: the first position where they
   * differ decides, and a proper prefix comes first.
   */
  predicate KeyLess(x: seq<int>, y: seq<int>)
    decreases |x|
  {
    y != [] && (x == [] || x[0] < y[0] || (x[0] == y[0] && KeyLess(x[1..], y[1..])))
  }

  lemma {:induction false} KeyLessIrreflexive(x: seq<int>)
    ensures !KeyLess(x, x)
    decreases |x|
  {
    if x != [] { KeyLessIrreflexive(x[1..]); }
  }

  lemma {:induction false} KeyLessTransitive(x: seq<int>, y: seq<int>, z: seq<int>)
    requires KeyLess(x, y) && KeyLess(y, z)
    ensures KeyLess(x, z)
    decreases |x|
  {
    if x != [] && x[0] == y[0] && y[0] == z[0] {
      KeyLessTransitive(x[1..], y[1..], z[1..]);
    }
  }

  lemma {:induction false} KeyLessTotal(x: seq<int>, y: seq<int>)
    requires x != y
    ensures KeyLess(x, y) || KeyLess(y, x)
    decreases |x|
  {
    if x != [] && y != [] && x[0] == y[0] {
      assert x == [x[0]] + x[1..] && y == [y[0]] + y[1..];
      KeyLessTotal(x[1..], y[1..]);
    }
  }

  /** Strictly ascending in tuple order, hence without repeats. */
  predicate Ascending(keys: seq<seq<int>>) {
    forall i, j :: 0 <= i < j < |keys| ==> KeyLess(keys[i], keys[j])
  }

  /** An ascending list with `k` added in its place, unless it is already there. */
  function InsertKey(keys: seq<seq<int>>, k: seq<int>): (r: seq<seq<int>>)
    requires Ascending(keys)
    ensures Ascending(r)
    ensures forall x :: x in r <==> x in keys || x == k
    decreases |keys|
  {
    if keys == [] then [k]
    else if k == keys[0] then keys
    else if KeyLess(k, keys[0]) then
      forall j | 0 <= j < |keys|
        ensures KeyLess(k, keys[j])
      {
        if j > 0 { KeyLessTransitive(k, keys[0], keys[j]); }
      }
      [k] + keys
    else
      KeyLessTotal(k, keys[0]);
      var tail := keys[1..];
      assert Ascending(tail) by {
        forall i, j | 0 <= i < j < |tail| ensures KeyLess(tail[i], tail[j]) {
          assert tail[i] == keys[i + 1] && tail[j] == keys[j + 1];
        }
      }
      var rest := InsertKey(tail, k);
      forall x | x in rest
        ensures KeyLess(keys[0], x)
      {
        if x != k {
          var m :| 0 <= m < |tail| && tail[m] == x;
          assert x == keys[m + 1];
        }
      }
      var r := [keys[0]] + rest;
      forall i, j | 0 <= i < j < |r|
        ensures KeyLess(r[i], r[j])
      {
        assert r[j] == rest[j - 1];
        if i > 0 { assert r[i] == rest[i - 1]; }
      }
      r
  }

  /** `sorted(set(keys))`: the distinct keys in ascending order. */
  function SortedDistinct(keys: seq<seq<int>>): (r: seq<seq<int>>)
    ensures Ascending(r)
    ensures forall x :: x in r <==> x in keys
  {
    if keys == [] then []
    else
      var n := |keys| - 1;
      var init := keys[..n];
      assert keys == init + [keys[n]];
      InsertKey(SortedDistinct(init), keys[n])
  }

  /** An ascending list holds no key twice, so it is fixed by the keys it holds. */
  lemma {:induction false} AscendingUnique(r1: seq<seq<int>>, r2: seq<seq<int>>)
    requires Ascending(r1) && Ascending(r2)
    requires forall x :: x in r1 <==> x in r2
    ensures r1 == r2
    decreases |r1|
  {
    if r2 != [] { var x := r2[0]; assert x in r2; assert x in r1; }
    if r1 != [] {
      assert r1[0] in r2;
      if r1[0] != r2[0] {
        assert r2[0] in r2;
        var i :| 0 <= i < |r1| && r1[i] == r2[0];
        var j :| 0 <= j < |r2| && r2[j] == r1[0];
        KeyLessTransitive(r1[0], r2[0], r1[0]);
        KeyLessIrreflexive(r1[0]);
        assert false;
      }
      HeadNotInTail(r1);
      HeadNotInTail(r2);
      AscendingUnique(r1[1..], r2[1..]);
      assert r1 == [r1[0]] + r1[1..] && r2 == [r2[0]] + r2[1..];
    }
  }

  /** The tail of an ascending list is ascending and holds everything but the head. */
  lemma HeadNotInTail(r: seq<seq<int>>)
    requires Ascending(r) && r != []
    ensures Ascending(r[1..])
    ensures forall x :: x in r[1..] <==> x in r && x != r[0]
  {
    KeyLessIrreflexive(r[0]);
    forall x | x in r[1..]
      ensures x != r[0]
    {
      var j :| 0 <= j < |r[1..]| && r[1..][j] == x;
      assert KeyLess(r[0], r[j + 1]);
    }
    assert r == [r[0]] + r[1..];
    forall i, j | 0 <= i < j < |r[1..]| ensures KeyLess(r[1..][i], r[1..][j]) {
      assert r[1..][i] == r[i + 1] && r[1..][j] == r[j + 1];
    }
  }

  /** `f"{n:02d}"`: at least two characters, zero-padded after any sign. */
  function Pad2(n: int): (s: string)
    ensures ParseInt(s) == Some(n)
  {
    ParseIntToString(n);
    if 0 <= n < 10 then
      ZeroPaddedReadsBack(n);
      "0" + IntToString(n)
    else IntToString(n)
  }

  /** A leading zero does not change the number a digit reads as. */
  lemma ZeroPaddedReadsBack(d: int)
    requires 0 <= d < 10
    ensures ParseInt("0" + IntToString(d)) == Some(d)
  {
    var s := "0" + IntToString(d);
    assert IntToString(d) == [DigitChar(d)];
    assert s == [DigitChar(0), DigitChar(d)];
    assert LStrip(s) == s;
    assert Strip(s) == s;
    assert s[..1] == [DigitChar(0)];
    assert DigitsValue(s[..1]) == 0 by { assert s[..1][..0] == []; }
    assert DigitsValue(s) == d;
  }

  /** The row label: "Y", "Y-Qq" or "Y-MM". */
  function PeriodLabel(unit: TimeUnit, key: seq<int>): (text: string)
    requires |key| == KeyWidth(unit)
    ensures unit == YearUnit ==> ParseInt(text) == Some(key[0])
    ensures unit == MonthUnit && 0 <= key[1] < 100 ==> |text| >= 3 && ParseInt(text[|text| - 2..]) == Some(key[1])
  {
    match unit
    case YearUnit => ParseIntToString(key[0]); IntToString(key[0])
    case QuarterUnit => IntToString(key[0]) + "-Q" + IntToString(key[1])
    case MonthUnit => MonthLabelParts(key[0], key[1]); IntToString(key[0]) + "-" + Pad2(key[1])
  }

  /** A quarter label (one-digit quarter) is the year, "-Q" and the quarter, and splits back into its key. */
  lemma QuarterLabelReadsBack(key: seq<int>)
    requires |key| == 2 && 0 <= key[1] <= 9
    ensures var text := PeriodLabel(QuarterUnit, key);
      && |text| >= 4 && text[|text| - 3..|text| - 1] == "-Q"
      && ParseInt(text[..|text| - 3]) == Some(key[0]) && ParseInt(text[|text| - 1..]) == Some(key[1])
  {
    var y, q := IntToString(key[0]), IntToString(key[1]);
    var text := PeriodLabel(QuarterUnit, key);
    assert text == y + "-Q" + q;
    assert q == [DigitChar(key[1])];
    assert text[..|text| - 3] == y;
    assert text[|text| - 3..|text| - 1] == "-Q";
    assert text[|text| - 1..] == q;
    ParseIntToString(key[0]);
    ParseIntToString(key[1]);
  }

  /** A month label (month below 100) is the year, '-' and the two-digit month, and splits back into its key. */
  lemma MonthLabelReadsBack(key: seq<int>)
    requires |key| == 2 && 0 <= key[1] < 100
    ensures var text := PeriodLabel(MonthUnit, key);
      && |text| >= 4 && text[|text| - 3] == '-'
      && ParseInt(text[..|text| - 3]) == Some(key[0]) && ParseInt(text[|text| - 2..]) == Some(key[1])
  {
    assert PeriodLabel(MonthUnit, key) == IntToString(key[0]) + "-" + Pad2(key[1]);
    MonthLabelParts(key[0], key[1]);
  }

  /** A month below 100 takes exactly the last two characters of its label, after '-' and the year. */
  lemma MonthLabelParts(year: int, month: int)
    ensures 0 <= month < 100 ==>
      var text := IntToString(year) + "-" + Pad2(month);
      && |text| >= 4 && text[|text| - 3] == '-'
      && ParseInt(text[..|text| - 3]) == Some(year) && ParseInt(text[|text| - 2..]) == Some(month)
  {
    if 0 <= month < 100 {
      var y, m := IntToString(year), Pad2(month);
      var text := y + "-" + m;
      Pad2Length(month);
      assert |text| == |y| + 3;
      assert text[|text| - 3] == '-';
      assert text[..|text| - 3] == y;
      assert text[|text| - 2..] == m;
      ParseIntToString(year);
    }
  }

  /** Different keys of one unit get different labels (quarters of one digit, months below 100). */
  lemma PeriodLabelInjective(unit: TimeUnit, k1: seq<int>, k2: seq<int>)
    requires |k1| == KeyWidth(unit) && |k2| == KeyWidth(unit)
    requires unit == QuarterUnit ==> 0 <= k1[1] <= 9 && 0 <= k2[1] <= 9
    requires unit == MonthUnit ==> 0 <= k1[1] < 100 && 0 <= k2[1] < 100
    ensures PeriodLabel(unit, k1) == PeriodLabel(unit, k2) ==> k1 == k2
  {
    if PeriodLabel(unit, k1) == PeriodLabel(unit, k2) {
      match unit
      case YearUnit =>
        assert k1 == [k1[0]] && k2 == [k2[0]];
      case QuarterUnit =>
        QuarterLabelInjective(k1[0], k1[1], k2[0], k2[1]);
        assert k1 == [k1[0], k1[1]] && k2 == [k2[0], k2[1]];
      case MonthUnit =>
        MonthLabelInjective(k1[0], k1[1], k2[0], k2[1]);
        assert k1 == [k1[0], k1[1]] && k2 == [k2[0], k2[1]];
    }
  }

  /** Two quarter labels (one-digit quarters) agree only for the same year and quarter. */
  lemma QuarterLabelInjective(y1: int, q1: int, y2: int, q2: int)
    requires 0 <= q1 <= 9 && 0 <= q2 <= 9
    ensures IntToString(y1) + "-Q" + IntToString(q1) == IntToString(y2) + "-Q" + IntToString(q2) ==> y1 == y2 && q1 == q2
  {
    var a1, a2, b1, b2 := IntToString(y1), IntToString(y2), IntToString(q1), IntToString(q2);
    if a1 + "-Q" + b1 == a2 + "-Q" + b2 {
      assert b1 == [DigitChar(q1)] && b2 == [DigitChar(q2)];
      JoinedPartsEqual(a1, b1, a2, b2, "-Q");
      ParseIntToString(y1);
      ParseIntToString(y2);
    }
  }

  /** Two month labels (months below 100) agree only for the same year and month. */
  lemma MonthLabelInjective(y1: int, m1: int, y2: int, m2: int)
    requires 0 <= m1 < 100 && 0 <= m2 < 100
    ensures IntToString(y1) + "-" + Pad2(m1) == IntToString(y2) + "-" + Pad2(m2) ==> y1 == y2 && m1 == m2
  {
    var a1, a2, b1, b2 := IntToString(y1), IntToString(y2), Pad2(m1), Pad2(m2);
    if a1 + "-" + b1 == a2 + "-" + b2 {
      Pad2Length(m1);
      Pad2Length(m2);
      JoinedPartsEqual(a1, b1, a2, b2, "-");
      ParseIntToString(y1);
      ParseIntToString(y2);
    }
  }

  /** A month below 100 pads to exactly two characters. */
  lemma Pad2Length(n: int)
    ensures 0 <= n < 100 ==> |Pad2(n)| == 2
  {
    if 10 <= n < 100 {
      assert NatToString(n) == NatToString(n / 10) + [DigitChar(n % 10)];
    }
  }

  /** Two texts joined by the same separator, with tails of equal length, have equal heads and tails. */
  lemma JoinedPartsEqual(a1: string, b1: string, a2: string, b2: string, sep: string)
    requires |b1| == |b2|
    ensures a1 + sep + b1 == a2 + sep + b2 ==> a1 == a2 && b1 == b2
  {
    var t1, t2 := a1 + sep + b1, a2 + sep + b2;
    if t1 == t2 {
      assert |a1| == |a2|;
      assert a1 == t1[..|a1|] && a2 == t2[..|a2|];
      assert b1 == t1[|t1| - |b1|..] && b2 == t2[|t2| - |b2|..];
    }
  }

  /** One line of the comparison; `key` is the group it was made for. */
  datatype ComparisonRow = ComparisonRow(key: seq<int>, periodLabel: string, salesA: int, transA: int, salesB: int, transB: int, salesDiff: int)

  /** The comparison line of one group key. */
  function CompareGroup(unit: TimeUnit, a: map<seq<int>, PeriodFigures>, b: map<seq<int>, PeriodFigures>, key: seq<int>): (row: ComparisonRow)
    requires |key| == KeyWidth(unit)
    ensures row.key == key && row.periodLabel == PeriodLabel(unit, key)
    ensures row.salesA == (if key in a then a[key].sales.GetOr(0) else 0)
    ensures row.transA == (if key in a then a[key].transactions.GetOr(0) else 0)
    ensures row.salesB == (if key in b then b[key].sales.GetOr(0) else 0)
    ensures row.transB == (if key in b then b[key].transactions.GetOr(0) else 0)
    ensures row.salesDiff == row.salesB - row.salesA
  {
    var fa := if key in a then a[key] else PeriodFigures(Some(0), Some(0));
    var fb := if key in b then b[key] else PeriodFigures(Some(0), Some(0));
    ComparisonRow(key, PeriodLabel(unit, key), fa.sales.GetOr(0), fa.transactions.GetOr(0), fb.sales.GetOr(0), fb.transactions.GetOr(0),
      fb.sales.GetOr(0) - fa.sales.GetOr(0))
  }

  /**
   * The A/B merge: one line per group key found in either period, in
   * ascending key order; a group missing from one side (or NULL there)
   * counts 0, and the difference is B's sales minus A's.
   */
  function MergePeriods(unit: TimeUnit, dataA: seq<PeriodRow>, dataB: seq<PeriodRow>): (rows: seq<ComparisonRow>)
    requires KeysOfWidth(unit, dataA) && KeysOfWidth(unit, dataB)
    ensures Ascending(RowKeys(rows))
    ensures forall k :: k in RowKeys(rows) <==> k in GroupDict(dataA) || k in GroupDict(dataB)
    ensures forall i :: 0 <= i < |rows| ==> rows[i].salesDiff == rows[i].salesB - rows[i].salesA
    ensures forall i :: 0 <= i < |rows| ==>
      var k := rows[i].key; var a := GroupDict(dataA); var b := GroupDict(dataB);
      && |k| == KeyWidth(unit) && rows[i].periodLabel == PeriodLabel(unit, k)
      && rows[i].salesA == (if k in a then a[k].sales.GetOr(0) else 0)
      && rows[i].transA == (if k in a then a[k].transactions.GetOr(0) else 0)
      && rows[i].salesB == (if k in b then b[k].sales.GetOr(0) else 0)
      && rows[i].transB == (if k in b then b[k].transactions.GetOr(0) else 0)
  {
    var keys := AllKeys(unit, dataA, dataB);
    var rows := CompareAll(unit, GroupDict(dataA), GroupDict(dataB), keys);
    assert RowKeys(rows) == keys;
    rows
  }

  /**
   * The group keys of the comparison lines, in line order: the same projection
   * as `KeysOf`, over merged lines instead of query rows (the two are distinct
   * datatypes, and Dafny has no common supertype for their `key` fields).
   */
  function RowKeys(rows: seq<ComparisonRow>): (keys: seq<seq<int>>)
    ensures |keys| == |rows| && forall i :: 0 <= i < |rows| ==> keys[i] == rows[i].key
  {
    seq(|rows|, i requires 0 <= i < |rows| => rows[i].key)
  }

  /** The comparison line of each key, in the keys' order. */
  function CompareAll(unit: TimeUnit, a: map<seq<int>, PeriodFigures>, b: map<seq<int>, PeriodFigures>, keys: seq<seq<int>>): (rows: seq<ComparisonRow>)
    requires forall i :: 0 <= i < |keys| ==> |keys[i]| == KeyWidth(unit)
    ensures |rows| == |keys| && forall i :: 0 <= i < |keys| ==> rows[i] == CompareGroup(unit, a, b, keys[i])
  {
    seq(|keys|, i requires 0 <= i < |keys| => CompareGroup(unit, a, b, keys[i]))
  }

  /** `all_keys`: the keys of either period, each once, in ascending order. */
  function AllKeys(unit: TimeUnit, dataA: seq<PeriodRow>, dataB: seq<PeriodRow>): (keys: seq<seq<int>>)
    requires KeysOfWidth(unit, dataA) && KeysOfWidth(unit, dataB)
    ensures Ascending(keys)
    ensures forall i :: 0 <= i < |keys| ==> |keys[i]| == KeyWidth(unit)
    ensures forall k :: k in keys <==> k in GroupDict(dataA) || k in GroupDict(dataB)
  {
    KeysOfDict(unit, dataA);
    KeysOfDict(unit, dataB);
    var all := KeysOf(dataA) + KeysOf(dataB);
    var keys := SortedDistinct(all);
    forall i | 0 <= i < |keys|
      ensures |keys[i]| == KeyWidth(unit)
    {
      assert keys[i] in all;
    }
    keys
  }

  /** The keys of the rows are the keys of their dictionary, all of the unit's width. */
  lemma KeysOfDict(unit: TimeUnit, data: seq<PeriodRow>)
    requires KeysOfWidth(unit, data)
    ensures forall k :: k in KeysOf(data) <==> k in GroupDict(data)
    ensures forall k :: k in KeysOf(data) ==> |k| == KeyWidth(unit)
  {
    var keys := KeysOf(data);
    forall k | k in GroupDict(data)
      ensures k in keys
    {
      var i :| 0 <= i < |data| && data[i].key == k;
      assert keys[i] == k;
    }
  }

  /** Swapping the two periods keeps the lines and their order, swaps the columns and negates every difference. */
  lemma MergeSwapped(unit: TimeUnit, dataA: seq<PeriodRow>, dataB: seq<PeriodRow>)
    requires KeysOfWidth(unit, dataA) && KeysOfWidth(unit, dataB)
    ensures var ab := MergePeriods(unit, dataA, dataB); var ba := MergePeriods(unit, dataB, dataA);
      |ab| == |ba|
      && forall i :: 0 <= i < |ab| ==>
        ab[i].key == ba[i].key && ab[i].periodLabel == ba[i].periodLabel && ab[i].salesDiff == -ba[i].salesDiff
        && ab[i].salesA == ba[i].salesB && ab[i].transA == ba[i].transB
  {
    AscendingUnique(AllKeys(unit, dataA, dataB), AllKeys(unit, dataB, dataA));
  }
}
