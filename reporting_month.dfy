/**
 * The reporting month asked for at start-up: by default the calendar month
 * before today's, written "YYYY-MM"; a non-empty answer is taken as it is.
 */
module ReportingMonth {
  import opened Wrappers

  datatype YearMonth = YearMonth(year: int, month: int)

  /** A month inside Python's date range (years 1 to 9999). */
  predicate IsValid(ym: YearMonth) { 1 <= ym.year <= 9999 && 1 <= ym.month <= 12 }

  /** Months counted from January of year 0, so that consecutive months differ by one. */
  function MonthNumber(ym: YearMonth): int { ym.year * 12 + (ym.month - 1) }

  /**
   * `today - relativedelta(months=1)`, kept to its year and month. January of
   * year 1 has no predecessor in Python's date range and raises; that is `None`.
   */
  function PreviousMonth(today: YearMonth): (r: Option<YearMonth>)
    requires IsValid(today)
    ensures r.None? <==> today == YearMonth(1, 1)
    ensures r.Some? ==> IsValid(r.value) && MonthNumber(r.value) == MonthNumber(today) - 1
  {
    if today.month == 1 then
      if today.year == 1 then None else Some(YearMonth(today.year - 1, 12))
    else
      Some(YearMonth(today.year, today.month - 1))
  }

  /** January of year Y goes to December of year Y - 1; every other month stays in its year. */
  lemma PreviousMonthWraps(today: YearMonth)
    requires IsValid(today) && today != YearMonth(1, 1)
    ensures today.month == 1 ==> PreviousMonth(today) == Some(YearMonth(today.year - 1, 12))
    ensures today.month != 1 ==> PreviousMonth(today) == Some(YearMonth(today.year, today.month - 1))
  {
  }

  function DigitChar(d: int): (c: char)
    requires 0 <= d <= 9
    ensures '0' <= c <= '9' && DigitValue(c) == d
  {
    (('0' as int) + d) as char
  }

  function DigitValue(c: char): int { (c as int) - ('0' as int) }

  /** The number a string of decimal digits denotes. */
  function DigitsValue(s: string): int
  {
    if s == [] then 0 else DigitsValue(s[..|s| - 1]) * 10 + DigitValue(s[|s| - 1])
  }

  predicate AllDigits(s: string) { forall i :: 0 <= i < |s| ==> '0' <= s[i] <= '9' }

  /** Zero-padded decimal digits of `n`. */
  function Padded(n: nat, width: nat): (s: string)
    requires n < Power10(width)
    ensures |s| == width && AllDigits(s) && DigitsValue(s) == n
  {
    if width == 0 then ""
    else
      var s := Padded(n / 10, width - 1) + [DigitChar(n % 10)];
      assert s[..|s| - 1] == Padded(n / 10, width - 1);
      s
  }

  function Power10(k: nat): nat { if k == 0 then 1 else 10 * Power10(k - 1) }

  /** `strftime('%Y-%m')`: four year digits, a dash, two month digits. */
  function Format(ym: YearMonth): (s: string)
    requires IsValid(ym)
    ensures |s| == 7 && s[4] == '-' && AllDigits(s[..4]) && AllDigits(s[5..])
    ensures DigitsValue(s[..4]) == ym.year && DigitsValue(s[5..]) == ym.month
  {
    var s := Padded(ym.year, 4) + "-" + Padded(ym.month, 2);
    assert s[..4] == Padded(ym.year, 4) && s[5..] == Padded(ym.month, 2);
    s
  }

  /**
   * `get_input_dt`: the default is computed first (so January of year 1 fails
   * whatever is typed); an empty answer takes the default, any other answer is
   * returned unchanged.
   */
  function InputMonth(today: YearMonth, input: string): (r: Option<string>)
    requires IsValid(today)
    ensures r.None? <==> today == YearMonth(1, 1)
    ensures r.Some? && input != "" ==> r.value == input
    ensures r.Some? && input == "" ==>
      exists prev :: PreviousMonth(today) == Some(prev) && r.value == Format(prev)
  {
    match PreviousMonth(today)
    case None => None
    case Some(prev) => if input == "" then Some(Format(prev)) else Some(input)
  }

  /** Confirming the default by ENTER names, in "YYYY-MM" digits, exactly the month before today's. */
  lemma DefaultIsPreviousMonth(today: YearMonth)
    requires IsValid(today) && today != YearMonth(1, 1)
    ensures var s := InputMonth(today, "").value;
      && |s| == 7 && s[4] == '-'
      && DigitsValue(s[..4]) * 12 + DigitsValue(s[5..]) - 1 == MonthNumber(today) - 1
      && 1 <= DigitsValue(s[5..]) <= 12
  {
  }
}
