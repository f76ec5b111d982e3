/**
 * How the report page turns the text of a table cell into a number and a
 * number back into cell text: `getCleanNumber` and the '$' / "NT$ "
 * formats with en-US thousands separators. Amounts are whole NT$, so the
 * fraction `parseFloat` would read after a '.' is dropped.
 */
module ReportFormat {
  import opened Wrappers
  import opened Text

  /** A value handed to `getCleanNumber`: page text, a number, or a missing (falsy) value. */
  datatype JsValue = JsString(s: string) | JsNumber(n: int) | JsNull

  /** The characters `/[^0-9.-]/g` keeps. */
  predicate IsNumberChar(c: char) { IsDigit(c) || c == '.' || c == '-' }

  /** `str.replace(/[^0-9.-]/g, '')`. */
  function Clean(s: string): (r: string)
    ensures |r| <= |s|
    ensures forall i :: 0 <= i < |r| ==> IsNumberChar(r[i])
  {
    if s == [] then [] else (if IsNumberChar(s[0]) then [s[0]] else []) + Clean(s[1..])
  }

  lemma {:induction false} CleanAppend(a: string, b: string)
    ensures Clean(a + b) == Clean(a) + Clean(b)
  {
    if a == [] {
      assert a + b == b;
    } else {
      var ab := a + b;
      var head := if IsNumberChar(a[0]) then [a[0]] else [];
      assert ab[0] == a[0] && ab[1..] == a[1..] + b;
      CleanAppend(a[1..], b);
      calc {
        Clean(ab);
        head + Clean(a[1..] + b);
        head + (Clean(a[1..]) + Clean(b));
        (head + Clean(a[1..])) + Clean(b);
      }
    }
  }

  lemma {:induction false} CleanKeeps(s: string)
    requires forall i :: 0 <= i < |s| ==> IsNumberChar(s[i])
    ensures Clean(s) == s
  {
    if s != [] {
      CleanKeeps(s[1..]);
      assert [s[0]] + s[1..] == s;
    }
  }

  /** The run of digits `t` starts with. */
  function DigitRun(t: string): (d: string)
    ensures |d| <= |t| && d == t[..|d|]
    ensures forall i :: 0 <= i < |d| ==> IsDigit(d[i])
    ensures |d| < |t| ==> !IsDigit(t[|d|])
  {
    if t == [] || !IsDigit(t[0]) then [] else [t[0]] + DigitRun(t[1..])
  }

  /**
   * `parseFloat` of cleaned text, to the whole NT$: an optional '-' and
   * the digits right after it; None where `parseFloat` gives NaN.
   */
  function LeadingInt(t: string): (r: Option<int>)
    ensures r.None? <==> DigitRun(if t != [] && t[0] == '-' then t[1..] else t) == []
  {
    var neg := t != [] && t[0] == '-';
    var digits := DigitRun(if neg then t[1..] else t);
    if digits == [] then None
    else
      var v: int := DigitsValue(digits);
      Some(if neg then -v else v)
  }

  /**
   * `getCleanNumber`: text keeps only digits, '.' and '-' and is parsed,
   * 0 when that fails; a number is returned as it is; a falsy value is 0.
   */
  function GetCleanNumber(v: JsValue): (n: int)
    ensures v.JsNumber? ==> n == v.n
    ensures v.JsNull? ==> n == 0
  {
    match v
    case JsString(s) => LeadingInt(Clean(s)).GetOr(0)
    case JsNumber(x) => x
    case JsNull => 0
  }

  lemma {:induction false} CleanKeepsNoDigit(s: string)
    requires forall i :: 0 <= i < |s| ==> !IsDigit(s[i])
    ensures forall i :: 0 <= i < |Clean(s)| ==> !IsDigit(Clean(s)[i])
  {
    if s != [] {
      CleanKeepsNoDigit(s[1..]);
    }
  }

  /** Text without a digit reads as 0, as `parseFloat` gives NaN for it. */
  lemma NoDigitsReadsZero(s: string)
    requires forall i :: 0 <= i < |s| ==> !IsDigit(s[i])
    ensures GetCleanNumber(JsString(s)) == 0
  {
    var t := Clean(s);
    CleanKeepsNoDigit(s);
    var u := if t != [] && t[0] == '-' then t[1..] else t;
    assert u == [] || !IsDigit(u[0]);
  }

  /** The number a cell's text shows. */
  function TextValue(s: string): int { GetCleanNumber(JsString(s)) }

  function Pad3(k: nat): (s: string)
    requires k < 1000
    ensures |s| == 3 && forall i :: 0 <= i < 3 ==> IsDigit(s[i])
  {
    [DigitChar(k / 100), DigitChar(k / 10 % 10), DigitChar(k % 10)]
  }

  /** en-US digit grouping of a whole number: thousands separated by ','. */
  function Grouped(n: nat): (s: string)
    ensures s != [] && IsDigit(s[0])
    ensures forall i :: 0 <= i < |s| ==> IsDigit(s[i]) || s[i] == ','
  {
    if n < 1000 then NatToString(n) else Grouped(n / 1000) + "," + Pad3(n % 1000)
  }

  /** `formatAsNumber`: the rounded number with en-US grouping. */
  function FormatNumber(n: int): (s: string)
    ensures s != [] && (s[0] == '-' <==> n < 0)
    ensures forall i :: 1 <= i < |s| ==> IsDigit(s[i]) || s[i] == ','
  {
    if n < 0 then "-" + Grouped(-n) else Grouped(n)
  }

  /** `formatAsCurrency`. */
  function FormatCurrency(n: int): (s: string)
    ensures |s| >= 2 && s[0] == '$' && (s[1] == '-' <==> n < 0)
    ensures forall i :: 2 <= i < |s| ==> IsDigit(s[i]) || s[i] == ','
  {
    "$" + FormatNumber(n)
  }

  /** The text of the "NT$" total cells. */
  function LabelledNumber(n: int): string { "NT$ " + FormatNumber(n) }

  function Pow10(k: nat): nat { if k == 0 then 1 else 10 * Pow10(k - 1) }

  lemma {:induction false} DigitsValueAppend(a: string, b: string)
    requires forall i :: 0 <= i < |a| ==> IsDigit(a[i])
    requires forall i :: 0 <= i < |b| ==> IsDigit(b[i])
    ensures DigitsValue(a + b) == DigitsValue(a) * Pow10(|b|) + DigitsValue(b)
    decreases |b|
  {
    if b == [] {
      assert a + b == a;
    } else {
      var b' := b[..|b| - 1];
      var ab := a + b;
      DigitsValueAppend(a, b');
      assert ab[..|ab| - 1] == a + b' && ab[|ab| - 1] == b[|b| - 1];
      var x := b[|b| - 1] as int - '0' as int;
      assert DigitsValue(ab) == DigitsValue(a + b') * 10 + x;
      assert DigitsValue(b) == DigitsValue(b') * 10 + x;
      assert Pow10(|b|) == Pow10(|b'|) * 10;
      ShiftDigit(DigitsValue(a), Pow10(|b'|), DigitsValue(b'), x);
    }
  }

  /** One more digit after a number split in two. */
  lemma ShiftDigit(high: int, p: int, low: int, x: int)
    ensures (high * p + low) * 10 + x == high * (p * 10) + (low * 10 + x)
  {
  }

  lemma Pad3Value(k: nat)
    requires k < 1000
    ensures DigitsValue(Pad3(k)) == k
  {
    var s := Pad3(k);
    ThreeDigits(s);
    assert s[0] as int - '0' as int == k / 100;
    assert s[1] as int - '0' as int == k / 10 % 10;
    assert s[2] as int - '0' as int == k % 10;
    Pad3Arith(k);
  }

  /** The value of three digits. */
  lemma ThreeDigits(s: string)
    requires |s| == 3 && forall i :: 0 <= i < 3 ==> IsDigit(s[i])
    ensures DigitsValue(s) == ((s[0] as int - '0' as int) * 10 + (s[1] as int - '0' as int)) * 10 + (s[2] as int - '0' as int)
  {
    assert s[..3] == s;
    assert s[..2][..1] == s[..1] && s[..1][..0] == [];
    assert DigitsValue(s[..1]) == s[0] as int - '0' as int;
    assert DigitsValue(s[..2]) == (s[0] as int - '0' as int) * 10 + (s[1] as int - '0' as int);
  }

  lemma Pad3Arith(k: nat)
    requires k < 1000
    ensures (k / 100 * 10 + k / 10 % 10) * 10 + k % 10 == k
  {
  }

  /** Removing the separators of a grouped number of four or more digits. */
  lemma CleanGroupedStep(n: nat)
    requires n >= 1000
    ensures Clean(Grouped(n)) == Clean(Grouped(n / 1000)) + Pad3(n % 1000)
  {
    var head := Grouped(n / 1000);
    var tail := Pad3(n % 1000);
    CleanAppend(head + ",", tail);
    CleanAppend(head, ",");
    assert Clean(",") == [];
    CleanKeeps(tail);
  }

  /** The digits of a grouped number, separators removed, spell the number. */
  lemma {:induction false} GroupedDigits(n: nat)
    ensures Clean(Grouped(n)) != []
    ensures forall i :: 0 <= i < |Clean(Grouped(n))| ==> IsDigit(Clean(Grouped(n))[i])
    ensures DigitsValue(Clean(Grouped(n))) == n
  {
    if n < 1000 {
      CleanKeeps(NatToString(n));
      NatToStringValue(n);
    } else {
      var head := Clean(Grouped(n / 1000));
      var tail := Pad3(n % 1000);
      GroupedDigits(n / 1000);
      CleanGroupedStep(n);
      DigitsValueAppend(head, tail);
      Pad3Value(n % 1000);
      assert Pow10(3) == 1000 by {
        assert Pow10(1) == 10 && Pow10(2) == 100;
      }
      assert DigitsValue(head + tail) == (n / 1000) * 1000 + n % 1000;
    }
  }

  lemma DigitRunAll(d: string)
    requires forall i :: 0 <= i < |d| ==> IsDigit(d[i])
    ensures DigitRun(d) == d
  {
    var run := DigitRun(d);
    assert |run| == |d|;
  }

  /** An optional '-' followed by digits parses to the signed value of the digits. */
  lemma SignedDigitsParse(neg: bool, d: string)
    requires d != [] && forall i :: 0 <= i < |d| ==> IsDigit(d[i])
    ensures var v: int := DigitsValue(d);
      LeadingInt((if neg then "-" else "") + d) == Some(if neg then -v else v)
  {
    if neg {
      NegativeDigitsParse(d);
    } else {
      assert "" + d == d;
      PositiveDigitsParse(d);
    }
  }

  lemma PositiveDigitsParse(d: string)
    requires d != [] && forall i :: 0 <= i < |d| ==> IsDigit(d[i])
    ensures LeadingInt(d) == Some(DigitsValue(d))
  {
    DigitRunAll(d);
    assert d[0] != '-';
  }

  lemma NegativeDigitsParse(d: string)
    requires d != [] && forall i :: 0 <= i < |d| ==> IsDigit(d[i])
    ensures LeadingInt("-" + d) == Some(-(DigitsValue(d) as int))
  {
    DigitRunAll(d);
    var t := "-" + d;
    assert t[0] == '-' && t[1..] == d;
  }

  /** Text that carries no digit, '.' or '-' in front of a formatted number does not change what it reads as. */
  lemma {:induction false} FormattedReadsBack(prefix: string, n: int)
    requires forall i :: 0 <= i < |prefix| ==> !IsNumberChar(prefix[i])
    ensures TextValue(prefix + FormatNumber(n)) == n
  {
    var m := if n < 0 then -n else n;
    GroupedDigits(m);
    var d := Clean(Grouped(m));
    CleanDropsAll(prefix);
    CleanAppend(prefix, FormatNumber(n));
    if n < 0 {
      CleanAppend("-", Grouped(m));
      assert Clean("-") == "-";
      assert Clean(prefix + FormatNumber(n)) == "-" + d;
      SignedDigitsParse(true, d);
    } else {
      assert Clean(prefix + FormatNumber(n)) == d;
      SignedDigitsParse(false, d);
      assert "" + d == d;
    }
  }

  lemma {:induction false} CleanDropsAll(s: string)
    requires forall i :: 0 <= i < |s| ==> !IsNumberChar(s[i])
    ensures Clean(s) == []
  {
    if s != [] {
      CleanDropsAll(s[1..]);
    }
  }

  /** A '$' amount reads back as the amount. */
  lemma CurrencyReadsBack(n: int)
    ensures TextValue(FormatCurrency(n)) == n
  {
    FormattedReadsBack("$", n);
  }

  /** An "NT$" amount reads back as the amount. */
  lemma LabelledReadsBack(n: int)
    ensures TextValue(LabelledNumber(n)) == n
  {
    FormattedReadsBack("NT$ ", n);
  }

  /** A number written into an input as plain text reads back as the number. */
  lemma PlainReadsBack(n: int)
    ensures TextValue(IntToString(n)) == n
  {
    if n < 0 {
      NegativeReadsBack(-n);
      assert -(-n) == n;
    } else {
      NonNegativeReadsBack(n);
    }
  }

  lemma NonNegativeReadsBack(m: nat)
    ensures TextValue(NatToString(m)) == m
  {
    var d := NatToString(m);
    NatToStringValue(m);
    CleanKeeps(d);
    PositiveDigitsParse(d);
  }

  lemma NegativeReadsBack(m: nat)
    requires m > 0
    ensures TextValue("-" + NatToString(m)) == -(m as int)
  {
    var d := NatToString(m);
    NatToStringValue(m);
    CleanKeeps("-" + d);
    NegativeDigitsParse(d);
  }
}
