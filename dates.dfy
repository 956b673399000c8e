/**
 * Civil calendar dates as the meal-plan routes and the planner page handle
 * them: a start date read from `YYYY-MM-DD`, day-by-day addition (what
 * `setDate(getDate() + n)` does on a local-noon timestamp) and the
 * `YYYY-MM-DD` rendering of `toISODate`/`todayISO`. The calendar is the
 * proleptic Gregorian one that JavaScript's Date uses.
 */
module Dates {
  import opened Wrappers
  import opened Text

  datatype Date = Date(year: int, month: int, day: int)

  predicate IsLeapYear(y: int) {
    y % 4 == 0 && (y % 100 != 0 || y % 400 == 0)
  }

  function DaysInMonth(y: int, m: int): (n: int)
    requires 1 <= m <= 12
    ensures 28 <= n <= 31
    ensures n == 31 <==> m in {1, 3, 5, 7, 8, 10, 12}
    ensures m == 2 ==> (n == 29 <==> IsLeapYear(y))
  {
    if m == 2 then (if IsLeapYear(y) then 29 else 28)
    else if m == 4 || m == 6 || m == 9 || m == 11 then 30
    else 31
  }

  /** A date that exists on the calendar. */
  predicate Valid(d: Date) {
    1 <= d.month <= 12 && 1 <= d.day <= DaysInMonth(d.year, d.month)
  }

  /** Calendar order: `a` is a strictly earlier day than `b`. */
  predicate Before(a: Date, b: Date) {
    a.year < b.year
    || (a.year == b.year && (a.month < b.month || (a.month == b.month && a.day < b.day)))
  }

  /** The following calendar day. */
  function NextDay(d: Date): (r: Date)
    requires Valid(d)
    ensures Valid(r) && Before(d, r)
    ensures r.day == 1 || (r.year, r.month) == (d.year, d.month)
  {
    if d.day < DaysInMonth(d.year, d.month) then d.(day := d.day + 1)
    else if d.month < 12 then Date(d.year, d.month + 1, 1)
    else Date(d.year + 1, 1, 1)
  }

  /** Adding `n` days to a civil date. */
  function AddDays(d: Date, n: nat): (r: Date)
    requires Valid(d)
    ensures Valid(r)
    decreases n
  {
    if n == 0 then d else AddDays(NextDay(d), n - 1)
  }

  /** Adding days is additive: `n + 1` days is one day after `n` days. */
  lemma {:induction false} AddDaysSucc(d: Date, n: nat)
    requires Valid(d)
    ensures AddDays(d, n + 1) == NextDay(AddDays(d, n))
    decreases n
  {
    if n > 0 {
      AddDaysSucc(NextDay(d), n - 1);
    }
  }

  /** Adding `i` days and then `j` days is adding `i + j` days. */
  lemma {:induction false} AddDaysAdd(d: Date, i: nat, j: nat)
    requires Valid(d)
    ensures AddDays(d, i + j) == AddDays(AddDays(d, i), j)
    decreases i
  {
    if i > 0 {
      AddDaysAdd(NextDay(d), i - 1, j);
    }
  }

  /** Later offsets give strictly later days, so the dates of a run are
      pairwise distinct and in calendar order. */
  lemma {:induction false} AddDaysIncreasing(d: Date, i: nat, j: nat)
    requires Valid(d) && i < j
    ensures Before(AddDays(d, i), AddDays(d, j))
    decreases j
  {
    AddDaysSucc(d, j - 1);
    if i < j - 1 {
      AddDaysIncreasing(d, i, j - 1);
    }
  }

  /** Within a month, adding days only moves the day of the month. */
  lemma {:induction false} AddDaysWithinMonth(d: Date, k: nat)
    requires Valid(d) && d.day + k <= DaysInMonth(d.year, d.month)
    ensures AddDays(d, k) == d.(day := d.day + k)
    decreases k
  {
    if k > 0 {
      AddDaysWithinMonth(NextDay(d), k - 1);
    }
  }

  // ---------------------------------------------------------------- text

  /** The text an invalid JavaScript Date renders through `toISODate`:
      every component is `NaN`. */
  const InvalidDateText: string := "NaN-NaN-NaN"

  /** `toISODate` / `todayISO`: the full year in decimal, then the month and
      the day of the month padded to two digits, joined by `-`. */
  function ToISODate(d: Date): string
    requires Valid(d)
  {
    IntToString(d.year) + "-" + PadStart2(NatToString(d.month)) + "-" + PadStart2(NatToString(d.day))
  }

  /** The `full-date` form of section 5.6 of RFC 3339: `YYYY-MM-DD` with
      every field zero-padded. */
  predicate IsFullDate(s: string) {
    |s| == 10 && AllDigits(s[..4]) && s[4] == '-' && AllDigits(s[5..7]) && s[7] == '-' && AllDigits(s[8..])
  }

  lemma NatToStringShort(n: nat)
    requires n < 100
    ensures |NatToString(n)| <= 2
  {
    if n >= 10 {
      assert NatToString(n) == NatToString(n / 10) + [DigitChar(n % 10)];
    }
  }

  lemma PaddedTwoDigits(n: nat)
    requires n < 100
    ensures |PadStart2(NatToString(n))| == 2 && AllDigits(PadStart2(NatToString(n)))
    ensures DigitsValue(PadStart2(NatToString(n))) == n
  {
    NatToStringShort(n);
    DigitsValueOfNatToString(n);
    var s := NatToString(n);
    var p := PadStart2(s);
    if |s| == 1 {
      assert p[..1] == "0";
      assert DigitsValue(p[..1]) == 0;
    }
  }

  /** Four year digits, two month digits and two day digits joined by
      dashes make a full-date whose fields are those pieces. */
  lemma FullDateFields(y: string, m: string, dd: string)
    requires |y| == 4 && |m| == 2 && |dd| == 2
    requires AllDigits(y) && AllDigits(m) && AllDigits(dd)
    ensures var s := y + "-" + m + "-" + dd;
      IsFullDate(s) && s[..4] == y && s[5..7] == m && s[8..] == dd
  {
    var s := y + "-" + m + "-" + dd;
    assert s[..4] == y;
    assert s[5..7] == m;
    assert s[8..] == dd;
  }

  /** Dates with a four-digit year render as an RFC 3339 full-date. */
  lemma ToISODateIsFullDate(d: Date)
    requires Valid(d) && 1000 <= d.year <= 9999
    ensures IsFullDate(ToISODate(d))
  {
    NatToStringLength4(d.year);
    PaddedTwoDigits(d.month);
    PaddedTwoDigits(d.day);
    FullDateFields(IntToString(d.year), PadStart2(NatToString(d.month)), PadStart2(NatToString(d.day)));
  }

  /** The start date as the generator reads `${startDate}T12:00:00`: four
      year digits, a two-digit month in 1..12 and a two-digit day in 1..31;
      a day past the end of its month rolls over into the next month, as
      JavaScript's Date does. Anything else is an invalid Date. */
  function ParseFullDate(s: string): (r: Option<Date>)
    ensures r.Some? ==> Valid(r.value)
  {
    if IsFullDate(s) then
      var y, m, d := DigitsValue(s[..4]), DigitsValue(s[5..7]), DigitsValue(s[8..]);
      if 1 <= m <= 12 && 1 <= d <= 31 then Some(AddDays(Date(y, m, 1), d - 1)) else None
    else None
  }

  /** Reading back a rendered date gives the date: format and parse are
      inverse on four-digit years. */
  lemma ParseToISODate(d: Date)
    requires Valid(d) && 1000 <= d.year <= 9999
    ensures ParseFullDate(ToISODate(d)) == Some(d)
  {
    ToISODateIsFullDate(d);
    NatToStringLength4(d.year);
    DigitsValueOfNatToString(d.year);
    PaddedTwoDigits(d.month);
    PaddedTwoDigits(d.day);
    FullDateFields(IntToString(d.year), PadStart2(NatToString(d.month)), PadStart2(NatToString(d.day)));
    AddDaysWithinMonth(Date(d.year, d.month, 1), d.day - 1);
  }

  /** A day past the end of the month is not rejected: 2023-02-30 reads as
      the second of March. */
  lemma ParseRollsOver()
    ensures ParseFullDate("2023-02-30") == Some(Date(2023, 3, 2))
  {
    ReadsAsDay30OfFebruary();
    Day30OfFebruary2023();
  }

  /** `2023-02-30` is read as the first of February 2023 plus 29 days. */
  lemma ReadsAsDay30OfFebruary()
    ensures ParseFullDate("2023-02-30") == Some(AddDays(Date(2023, 2, 1), 29))
  {
    var s := "2023-02-30";
    assert s[..4] == "2023" && s[5..7] == "02" && s[8..] == "30";
    assert IsFullDate(s);
    assert "2023"[..3] == "202" && "202"[..2] == "20" && "20"[..1] == "2" && "2"[..0] == "";
    assert DigitsValue("2023") == 2023;
    assert "02"[..1] == "0" && "30"[..1] == "3";
    assert DigitsValue("02") == 2;
    assert DigitsValue("30") == 30;
  }

  /** 29 days after the first of February 2023 is the second of March. */
  lemma Day30OfFebruary2023()
    ensures AddDays(Date(2023, 2, 1), 29) == Date(2023, 3, 2)
  {
    var feb1 := Date(2023, 2, 1);
    assert !IsLeapYear(2023);
    AddDaysWithinMonth(feb1, 27);
    AddDaysAdd(feb1, 27, 2);
    var feb28 := Date(2023, 2, 28);
    assert NextDay(feb28) == Date(2023, 3, 1);
    assert AddDays(feb28, 2) == AddDays(Date(2023, 3, 1), 1);
    assert AddDays(Date(2023, 3, 1), 1) == AddDays(Date(2023, 3, 2), 0);
  }
}
