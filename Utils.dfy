/** The string predicates and numeric helpers of src/utils/index.ts, written as
    character-level recursion instead of regular expressions. */
module Utils {

  predicate IsDigit(c: char) { '0' <= c <= '9' }

  predicate IsUpper(c: char) { 'A' <= c <= 'Z' }

  predicate AllDigits(s: string) {
    s == [] || (IsDigit(s[0]) && AllDigits(s[1..]))
  }

  // ---------------------------------------------------------------------------
  // isNumeric: /^-?(?:\d+\.?\d*|\.\d+)$/
  // ---------------------------------------------------------------------------

  /** `\d*(\.\d*)?`: digits, then optionally a dot and more digits. */
  predicate DigitsOptFraction(t: string) {
    t == [] || (IsDigit(t[0]) && DigitsOptFraction(t[1..])) || (t[0] == '.' && AllDigits(t[1..]))
  }

  /** The unsigned body of a number: `\d+\.?\d*` or `\.\d+`. */
  predicate UnsignedNumeric(t: string) {
    (|t| > 0 && IsDigit(t[0]) && DigitsOptFraction(t[1..]))
    || (|t| >= 2 && t[0] == '.' && AllDigits(t[1..]))
  }

  predicate IsNumeric(s: string) {
    UnsignedNumeric(s) || (|s| > 0 && s[0] == '-' && UnsignedNumeric(s[1..]))
  }

  /** The text after an optional leading minus sign. */
  function Unsigned(s: string): (t: string)
    ensures |s| > 0 && s[0] == '-' ==> t == s[1..]
    ensures (|s| == 0 || s[0] != '-') ==> t == s
  {
    if |s| > 0 && s[0] == '-' then s[1..] else s
  }

  /** A plain description of a decimal: digits and dots only, at most one dot,
      at least one digit. */
  ghost predicate DecimalShape(t: string) {
    && (forall i :: 0 <= i < |t| ==> IsDigit(t[i]) || t[i] == '.')
    && (forall i, j :: 0 <= i < j < |t| ==> !(t[i] == '.' && t[j] == '.'))
    && (exists i :: 0 <= i < |t| && IsDigit(t[i]))
  }

  lemma {:induction false} AllDigitsAt(s: string)
    ensures AllDigits(s) <==> forall i :: 0 <= i < |s| ==> IsDigit(s[i])
  {
    if s != [] {
      AllDigitsAt(s[1..]);
      assert forall i :: 1 <= i < |s| ==> s[i] == s[1..][i - 1];
    }
  }

  /** `DigitsOptFraction` is "digits and dots, at most one dot". */
  lemma {:induction false} DigitsOptFractionShape(t: string)
    ensures DigitsOptFraction(t) <==>
      (forall i :: 0 <= i < |t| ==> IsDigit(t[i]) || t[i] == '.')
      && (forall i, j :: 0 <= i < j < |t| ==> !(t[i] == '.' && t[j] == '.'))
  {
    if t != [] {
      DigitsOptFractionShape(t[1..]);
      AllDigitsAt(t[1..]);
      assert forall i :: 1 <= i < |t| ==> t[i] == t[1..][i - 1];
      if t[0] == '.' {
        if DigitsOptFraction(t) {
          assert AllDigits(t[1..]);
        }
      }
    }
  }

  /** Accepted strings are exactly: an optional `-` at position 0, then digits and dots
      with at most one dot and at least one digit. */
  lemma NumericShape(s: string)
    ensures IsNumeric(s) <==> DecimalShape(Unsigned(s))
  {
    var t := Unsigned(s);
    assert IsNumeric(s) <==> UnsignedNumeric(t);
    if t != [] {
      DigitsOptFractionShape(t[1..]);
      AllDigitsAt(t[1..]);
      assert forall i :: 1 <= i < |t| ==> t[i] == t[1..][i - 1];
      if UnsignedNumeric(t) {
        if IsDigit(t[0]) {
          assert IsDigit(t[0]);
        } else {
          assert IsDigit(t[1..][0]);
          assert IsDigit(t[1]);
        }
      }
      if DecimalShape(t) && t[0] == '.' {
        var i :| 0 <= i < |t| && IsDigit(t[i]);
        assert i >= 1;
        assert |t| >= 2;
      }
    }
  }

  lemma IsNumericExamples()
    ensures IsNumeric("123") && IsNumeric("123.45") && IsNumeric("-123.45")
    ensures IsNumeric("123.") && IsNumeric(".45")
    ensures !IsNumeric("123a45") && !IsNumeric("..45") && !IsNumeric("123..")
    ensures !IsNumeric("") && !IsNumeric("-") && !IsNumeric(".")
  {
  }

  // ---------------------------------------------------------------------------
  // isExcelCellAddress: /^[A-Z]+[1-9][0-9]*$/
  // ---------------------------------------------------------------------------

  /** `[1-9][0-9]*` */
  predicate RowNumber(t: string) {
    |t| > 0 && '1' <= t[0] <= '9' && AllDigits(t[1..])
  }

  /** `[A-Z]*[1-9][0-9]*` */
  predicate ColumnThenRow(t: string) {
    RowNumber(t) || (|t| > 0 && IsUpper(t[0]) && ColumnThenRow(t[1..]))
  }

  predicate IsExcelCellAddress(s: string) {
    |s| > 0 && IsUpper(s[0]) && ColumnThenRow(s[1..])
  }

  /** In `t`, the column letters end at `k`, where the row number starts. */
  ghost predicate RowStartsAt(t: string, k: int) {
    && 0 <= k < |t|
    && (forall i :: 0 <= i < k ==> IsUpper(t[i]))
    && '1' <= t[k] <= '9'
    && (forall i :: k < i < |t| ==> IsDigit(t[i]))
  }

  lemma RowStartsAtFirst(t: string)
    ensures RowStartsAt(t, 0) <==> RowNumber(t)
  {
    if t != [] {
      AllDigitsAt(t[1..]);
      assert forall i :: 1 <= i < |t| ==> t[i] == t[1..][i - 1];
    }
  }

  lemma RowStartsAtLater(t: string, k: int)
    requires t != [] && k >= 0
    ensures RowStartsAt(t, k + 1) <==> IsUpper(t[0]) && RowStartsAt(t[1..], k)
  {
    assert forall i :: 1 <= i < |t| ==> t[i] == t[1..][i - 1];
  }

  lemma {:induction false} ColumnThenRowAt(t: string)
    ensures ColumnThenRow(t) <==> exists k :: RowStartsAt(t, k)
  {
    if t != [] {
      ColumnThenRowAt(t[1..]);
      RowStartsAtFirst(t);
      if ColumnThenRow(t) && !RowNumber(t) {
        var k :| RowStartsAt(t[1..], k);
        RowStartsAtLater(t, k);
      }
      if k :| RowStartsAt(t, k) {
        if k > 0 {
          RowStartsAtLater(t, k - 1);
        }
      }
    }
  }

  /** Accepted strings are exactly one or more letters `A`-`Z`, then a digit `1`-`9`,
      then any digits. */
  lemma CellAddressShape(s: string)
    ensures IsExcelCellAddress(s) <==> exists k :: k >= 1 && RowStartsAt(s, k)
  {
    if s != [] {
      ColumnThenRowAt(s[1..]);
      if IsExcelCellAddress(s) {
        var k :| RowStartsAt(s[1..], k);
        RowStartsAtLater(s, k);
      }
      if k :| k >= 1 && RowStartsAt(s, k) {
        RowStartsAtLater(s, k - 1);
      }
    }
  }

  lemma CellAddressExamples()
    ensures IsExcelCellAddress("A1") && IsExcelCellAddress("B2")
    ensures IsExcelCellAddress("AA10") && IsExcelCellAddress("Z100")
    ensures !IsExcelCellAddress("1A") && !IsExcelCellAddress("A0") && !IsExcelCellAddress("AA")
    ensures !IsExcelCellAddress("") && !IsExcelCellAddress("A1B2")
  {
  }

  // ---------------------------------------------------------------------------
  // Number(str) on strings accepted by isNumeric
  // ---------------------------------------------------------------------------

  function DigitValue(c: char): nat {
    if IsDigit(c) then c as int - '0' as int else 0
  }

  function Pow10(n: nat): (r: nat)
    ensures r >= 1
  {
    if n == 0 then 1 else 10 * Pow10(n - 1)
  }

  /** The integer spelled by the digits of `t`, dots skipped. */
  function Mantissa(t: string): nat {
    if t == [] then 0
    else if t[|t| - 1] == '.' then Mantissa(t[..|t| - 1])
    else 10 * Mantissa(t[..|t| - 1]) + DigitValue(t[|t| - 1])
  }

  /** How many characters follow the dot (0 when there is none). */
  function FractionLength(t: string): nat {
    if t == [] then 0 else if t[0] == '.' then |t| - 1 else FractionLength(t[1..])
  }

  function UnsignedValue(t: string): (r: real)
    ensures r >= 0.0
  {
    (Mantissa(t) as real) / (Pow10(FractionLength(t)) as real)
  }

  /** `Number(s)` for a string that `isNumeric` accepts. */
  function NumberValue(s: string): (r: real)
    requires IsNumeric(s)
    ensures r < 0.0 ==> |s| > 0 && s[0] == '-'
  {
    if |s| > 0 && s[0] == '-' then -UnsignedValue(s[1..]) else UnsignedValue(s)
  }

  /** The value of a digit string, read as a natural number. */
  function DigitsValue(ds: string): nat {
    if ds == [] then 0 else 10 * DigitsValue(ds[..|ds| - 1]) + DigitValue(ds[|ds| - 1])
  }

  /** Regrouping `10 * (m * p + d) + e`; kept apart so the nonlinear step is proved
      without the facts about strings in scope. */
  lemma ShiftDigit(m: nat, p: nat, d: nat, e: nat)
    ensures 10 * (m * p + d) + e == m * (10 * p) + (10 * d + e)
  {
  }

  lemma {:induction false} MantissaAppend(a: string, b: string)
    requires AllDigits(b)
    ensures Mantissa(a + b) == Mantissa(a) * Pow10(|b|) + DigitsValue(b)
  {
    if b == [] {
      assert a + b == a;
    } else {
      var b' := b[..|b| - 1];
      var c := b[|b| - 1];
      AllDigitsAt(b);
      AllDigitsAt(b');
      assert (a + b)[..|a + b| - 1] == a + b';
      assert (a + b)[|a + b| - 1] == c;
      assert c != '.';
      MantissaAppend(a, b');
      assert Mantissa(a + b) == 10 * Mantissa(a + b') + DigitValue(c);
      assert Pow10(|b|) == 10 * Pow10(|b'|);
      assert DigitsValue(b) == 10 * DigitsValue(b') + DigitValue(c);
      ShiftDigit(Mantissa(a), Pow10(|b'|), DigitsValue(b'), DigitValue(c));
    }
  }

  lemma {:induction false} FractionLengthOfDigits(a: string)
    requires AllDigits(a)
    ensures FractionLength(a) == 0
  {
    if a != [] {
      FractionLengthOfDigits(a[1..]);
    }
  }

  lemma {:induction false} FractionLengthAfterDigits(a: string, b: string)
    requires AllDigits(a)
    ensures FractionLength(a + "." + b) == |b|
  {
    if a == [] {
      assert a + "." + b == "." + b;
    } else {
      assert (a + "." + b)[1..] == a[1..] + "." + b;
      FractionLengthAfterDigits(a[1..], b);
    }
  }

  lemma {:induction false} IntegerMeaning(a: string)
    requires AllDigits(a)
    ensures Mantissa(a) == DigitsValue(a)
    ensures UnsignedValue(a) == DigitsValue(a) as real
  {
    FractionLengthOfDigits(a);
    MantissaAppend([], a);
    assert [] + a == a;
  }

  /** The decimal meaning of a number: integer digits `a` and fraction digits `b`
      denote a + b / 10^|b|. */
  lemma DecimalMeaning(a: string, b: string)
    requires AllDigits(a) && AllDigits(b)
    ensures UnsignedValue(a) == DigitsValue(a) as real
    ensures UnsignedValue(a + "." + b) ==
      DigitsValue(a) as real + (DigitsValue(b) as real) / (Pow10(|b|) as real)
  {
    IntegerMeaning(a);
    var s := a + "." + b;
    assert Mantissa(s) == Mantissa(a) * Pow10(|b|) + DigitsValue(b) by {
      assert (a + ".")[..|a + "."| - 1] == a;
      assert Mantissa(a + ".") == Mantissa(a);
      MantissaAppend(a + ".", b);
    }
    assert FractionLength(s) == |b| by {
      FractionLengthAfterDigits(a, b);
    }
    ValueOfParts(s, Mantissa(a), Pow10(|b|), DigitsValue(b));
  }

  /** The value of a number whose digits spell `m * p + d`, with `p` the power of ten
      its fraction length gives. */
  lemma ValueOfParts(s: string, m: nat, p: nat, d: nat)
    requires Mantissa(s) == m * p + d && Pow10(FractionLength(s)) == p
    ensures UnsignedValue(s) == m as real + (d as real) / (p as real)
  {
    ShiftedValue(m, p, d);
  }

  lemma ShiftedValue(m: nat, p: nat, d: nat)
    requires p > 0
    ensures ((m * p + d) as real) / (p as real) == m as real + (d as real) / (p as real)
  {
    assert (m * p + d) as real == (m as real) * (p as real) + d as real;
    assert ((m as real) * (p as real) + d as real) / (p as real) == m as real + (d as real) / (p as real);
  }

  lemma DigitsValueExamples()
    ensures DigitsValue("123") == 123 && DigitsValue("45") == 45
    ensures DigitsValue("456") == 456 && DigitsValue("10") == 10
  {
    assert "123"[..2] == "12" && "12"[..1] == "1" && "1"[..0] == "";
    assert "45"[..1] == "4" && "4"[..0] == "";
    assert "456"[..2] == "45";
    assert "10"[..1] == "1";
  }

  lemma NumberValueExamples()
    ensures NumberValue("123") == 123.0
    ensures NumberValue("123.45") == 123.45
    ensures NumberValue("-123.45") == -123.45
    ensures NumberValue("123.") == 123.0
    ensures NumberValue(".45") == 0.45
  {
    DigitsValueExamples();
    assert AllDigits("123") && AllDigits("45") && AllDigits("");
    DecimalMeaning("123", "");
    DecimalMeaning("123", "45");
    DecimalMeaning("", "45");
    assert "123.45" == "123" + "." + "45";
    assert "-123.45"[1..] == "123.45";
    assert "123." == "123" + "." + "";
    assert ".45" == "" + "." + "45";
  }

  /** The numbers of the tokenizer's own cases `=3 / 5 * 10` and `=ROUND(123.456, 0)`. */
  lemma NumberValueOfCases()
    ensures IsNumeric("123.456") && NumberValue("123.456") == 123.456
    ensures IsNumeric("10") && NumberValue("10") == 10.0
  {
    DigitsValueExamples();
    assert AllDigits("123") && AllDigits("456") && AllDigits("10");
    DecimalMeaning("123", "456");
    IntegerMeaning("10");
    assert "123.456" == "123" + "." + "456";
  }

  // ---------------------------------------------------------------------------
  // roundToPlaces(value, places) = Math.round(value * 10^places) / 10^places
  // ---------------------------------------------------------------------------

  /** JavaScript's `Math.round`: the nearest integer, halves rounded up. */
  function JsRound(x: real): (r: real)
    ensures r == r.Floor as real
    ensures x - 0.5 < r <= x + 0.5
  {
    (x + 0.5).Floor as real
  }

  /** `Math.pow(10, places)` for the integral part of `places`. */
  function PlacesFactor(places: real): (f: real)
    ensures f > 0.0
  {
    var p := places.Floor;
    if p >= 0 then Pow10(p) as real else 1.0 / (Pow10(-p) as real)
  }

  /** `roundToPlaces`: `value` rounded to a multiple of 10^-places; scaled back up, the
      result is the integer nearest to value * 10^places. */
  function RoundToPlaces(value: real, places: real): (r: real)
    ensures r * PlacesFactor(places) == JsRound(value * PlacesFactor(places))
    ensures value * PlacesFactor(places) - 0.5 < r * PlacesFactor(places) <= value * PlacesFactor(places) + 0.5
  {
    Unscale(JsRound(value * PlacesFactor(places)), PlacesFactor(places))
  }

  function Unscale(n: real, f: real): (r: real)
    requires f > 0.0
    ensures r * f == n
  {
    n / f
  }

  lemma RoundToPlacesExamples()
    ensures RoundToPlaces(123.456, 0.0) == 123.0
    ensures RoundToPlaces(123.456, 1.0) == 123.5
    ensures RoundToPlaces(123.456, -1.0) == 120.0
    ensures RoundToPlaces(0.0, 1.0) == 0.0
    ensures RoundToPlaces(0.0, 0.0) == 0.0
  {
    assert PlacesFactor(0.0) == 1.0;
    assert PlacesFactor(1.0) == 10.0;
    assert PlacesFactor(-1.0) == 0.1;
    assert JsRound(123.456) == 123.0;
    assert JsRound(1234.56) == 1235.0;
    assert JsRound(12.3456) == 12.0;
  }

  lemma RoundToPlacesNegativeExamples()
    ensures RoundToPlaces(-123.456, 0.0) == -123.0
    ensures RoundToPlaces(-123.456, 1.0) == -123.5
    ensures RoundToPlaces(-123.456, -1.0) == -120.0
  {
    assert PlacesFactor(0.0) == 1.0;
    assert PlacesFactor(1.0) == 10.0;
    assert PlacesFactor(-1.0) == 0.1;
    assert JsRound(-123.456) == -123.0;
    assert JsRound(-1234.56) == -1235.0;
    assert JsRound(-12.3456) == -12.0;
  }
}
