/**
  The time-to-failure heuristic: a predicted decay becomes a number of hours
  left, clamped at zero, and then a whole number of minutes, which the verdict
  carries as the text "<minutes> minutes".
 */
module FailureTime {

  import opened Wrappers

  /** Hours left for a predicted decay: a factor of 100 on the remaining life, never negative. */
  function HoursLeft(decay: real): (h: real)
    ensures h >= 0.0
    ensures h == 0.0 <==> decay >= 1.0
  {
    var hours := (1.0 - decay) * 100.0;
    if hours > 0.0 then hours else 0.0
  }

  /**
    Whole minutes left: the hours times 60, truncated. Truncation toward zero
    and the floor agree here because the hours are never negative.
   */
  function Minutes(decay: real): (m: nat)
    ensures decay >= 1.0 ==> m == 0
    ensures decay <= 1.0 ==> m == ((1.0 - decay) * 6000.0).Floor
  {
    (HoursLeft(decay) * 60.0).Floor
  }

  /** A fresh component (decay 0) has 6000 minutes left. */
  lemma MinutesWhenNew()
    ensures Minutes(0.0) == 6000
  {
  }

  /** The floor is monotone. */
  lemma FloorMonotone(x: real, y: real)
    requires x <= y
    ensures x.Floor <= y.Floor
  {
  }

  /** More decay never means more minutes left. */
  lemma MinutesNonIncreasing(d1: real, d2: real)
    requires d1 <= d2
    ensures Minutes(d2) <= Minutes(d1)
  {
    assert HoursLeft(d2) <= HoursLeft(d1);
    FloorMonotone(HoursLeft(d2) * 60.0, HoursLeft(d1) * 60.0);
  }

  /** A decay in [0, 1] leaves between 0 and 6000 minutes. */
  lemma MinutesBounded(decay: real)
    requires 0.0 <= decay
    ensures Minutes(decay) <= 6000
  {
    MinutesNonIncreasing(0.0, decay);
    MinutesWhenNew();
  }

  /** The decimal digit character of a digit value. */
  function DigitChar(d: nat): (c: char)
    requires d < 10
    ensures '0' <= c <= '9' && (c as int) - ('0' as int) == d
  {
    ('0' as int + d) as char
  }

  predicate IsDigit(c: char) {
    '0' <= c <= '9'
  }

  predicate AllDigits(s: string) {
    forall i :: 0 <= i < |s| ==> IsDigit(s[i])
  }

  /** The decimal text of a natural number, without leading zeros (as Python's `str` of an int). */
  function Decimal(n: nat): (s: string)
    decreases n
    ensures |s| >= 1 && AllDigits(s)
    ensures s[0] == '0' ==> n == 0
  {
    if n < 10 then [DigitChar(n)] else Decimal(n / 10) + [DigitChar(n % 10)]
  }

  /** The number a string of decimal digits denotes. */
  function DecimalValue(s: string): nat
    requires AllDigits(s)
  {
    if s == [] then 0
    else DecimalValue(s[..|s| - 1]) * 10 + ((s[|s| - 1] as int) - ('0' as int))
  }

  /** Reading the decimal text back gives the number. */
  lemma {:induction false} DecimalRoundTrip(n: nat)
    ensures DecimalValue(Decimal(n)) == n
  {
    var s := Decimal(n);
    if n >= 10 {
      DecimalRoundTrip(n / 10);
      assert s[..|s| - 1] == Decimal(n / 10);
    }
  }

  const MinutesSuffix: string := " minutes"

  /** The verdict's text for a minute count: "<minutes> minutes". */
  function MinutesText(m: nat): string {
    Decimal(m) + MinutesSuffix
  }

  /** Parses a text of the form "<digits> minutes"; `None` for any other text. */
  function ParseMinutesText(s: string): Option<nat> {
    if |s| > |MinutesSuffix| && s[|s| - |MinutesSuffix|..] == MinutesSuffix
       && AllDigits(s[..|s| - |MinutesSuffix|])
    then Some(DecimalValue(s[..|s| - |MinutesSuffix|]))
    else None
  }

  /** The minute text carries the minute count: parsing it gives the count back. */
  lemma MinutesTextRoundTrip(m: nat)
    ensures ParseMinutesText(MinutesText(m)) == Some(m)
  {
    var s := MinutesText(m);
    assert s[..|s| - |MinutesSuffix|] == Decimal(m);
    assert s[|s| - |MinutesSuffix|..] == MinutesSuffix;
    DecimalRoundTrip(m);
  }
}
