/**
  The visible-activity counter.

  The counter counts the list's rows minus the header row, never below zero,
  and shows the count in decimal followed by "actividad", or "actividades"
  for every count other than one.
*/
module Counter {

  /** Rows shown, not counting the header; the count is zero when there is no header either. */
  function VisibleCount(rowCount: int): (n: nat)
    ensures rowCount >= 1 ==> n + 1 == rowCount
    ensures rowCount < 1 ==> n == 0
  {
    if rowCount - 1 > 0 then rowCount - 1 else 0
  }

  /** Under a header, the count is the number of rows beneath it. */
  lemma CountUnderHeader(rows: nat)
    ensures VisibleCount(1 + rows) == rows
  {
  }

  predicate IsDigit(ch: char) {
    '0' <= ch <= '9'
  }

  function DigitChar(d: nat): (ch: char)
    requires d < 10
    ensures IsDigit(ch) && ch as int - '0' as int == d
  {
    "0123456789"[d]
  }

  /** A natural number written in decimal, without leading zeros. */
  function Decimal(n: nat): (s: string)
    ensures 1 <= |s|
    ensures forall i :: 0 <= i < |s| ==> IsDigit(s[i])
    ensures |s| > 1 ==> s[0] != '0'
    decreases n
  {
    if n < 10 then [DigitChar(n)] else Decimal(n / 10) + [DigitChar(n % 10)]
  }

  /** The number a string of decimal digits denotes. */
  function DecimalValue(s: string): nat
    requires forall i :: 0 <= i < |s| ==> IsDigit(s[i])
    decreases |s|
  {
    if |s| == 0 then 0
    else
      assert IsDigit(s[|s| - 1]);
      DecimalValue(s[..|s| - 1]) * 10 + (s[|s| - 1] as int - '0' as int)
  }

  /** Reading the decimal text back gives the number. */
  lemma {:induction false} DecimalRoundTrip(n: nat)
    ensures DecimalValue(Decimal(n)) == n
    decreases n
  {
    if n >= 10 {
      DecimalRoundTrip(n / 10);
      var s := Decimal(n);
      assert s[..|s| - 1] == Decimal(n / 10);
    }
  }

  /** The counter's text for a count. */
  function CounterText(n: nat): (text: string)
    ensures text == Decimal(n) + " actividad" || text == Decimal(n) + " actividades"
    ensures text == Decimal(n) + " actividad" <==> n == 1
  {
    Decimal(n) + " actividad" + (if n == 1 then "" else "es")
  }

  /** The counts the page shows most often. */
  lemma CounterTextExamples()
    ensures CounterText(0) == "0 actividades"
    ensures CounterText(1) == "1 actividad"
    ensures CounterText(2) == "2 actividades"
    ensures CounterText(5) == "5 actividades"
  {
    assert Decimal(0) == ['0'] && Decimal(1) == ['1'] && Decimal(2) == ['2'] && Decimal(5) == ['5'];
  }

  /** Different counts never show the same text. */
  lemma CounterTextInjective(m: nat, n: nat)
    requires CounterText(m) == CounterText(n)
    ensures m == n
  {
    var a, b := Decimal(m), Decimal(n);
    var t := CounterText(m);
    assert |a| == |b|;
    assert a == t[..|a|] == b;
    DecimalRoundTrip(m);
    DecimalRoundTrip(n);
  }
}
