/** The proleptic Gregorian calendar, counted in days from 1970-01-01.

    Dates are handled as a month index (12 * year + month - 1) and a day number.
    `FirstOfMonth` turns a month index into its first day, `MonthIndexOf` goes
    back with the usual 400/100/4-year cycle arithmetic.  The two are tied to the
    calendar's own rule (month lengths and leap years) by `MonthLength`. */
module Calendar {

  predicate IsLeap(year: int) {
    year % 4 == 0 && (year % 100 != 0 || year % 400 == 0)
  }

  function DaysInMonth(year: int, month: int): int
    requires 1 <= month <= 12
  {
    if month == 2 then (if IsLeap(year) then 29 else 28)
    else if month in {4, 6, 9, 11} then 30
    else 31
  }

  /** Days from 1970-01-01 to January 1st of `year`. */
  function DaysBeforeYear(year: int): int {
    var past := year - 1;
    365 * past + past / 4 - past / 100 + past / 400 - 719162
  }

  /** Days from January 1st to the first day of `month`. */
  function DaysBeforeMonth(leap: bool, month: int): int
    requires 1 <= month <= 13
  {
    var extra := if leap && month > 2 then 1 else 0;
    var common := match month
      case 1 => 0 case 2 => 31 case 3 => 59 case 4 => 90 case 5 => 120 case 6 => 151
      case 7 => 181 case 8 => 212 case 9 => 243 case 10 => 273 case 11 => 304 case 12 => 334
      case _ => 365;
    common + extra
  }

  function FirstOfMonth(monthIndex: int): int {
    var year, month := monthIndex / 12, monthIndex % 12 + 1;
    DaysBeforeYear(year) + DaysBeforeMonth(IsLeap(year), month)
  }

  /** The year a day lies in: 400-, 100-, 4- and 1-year cycles are divided out in turn. */
  function YearOf(day: int): int {
    var d0 := day + 719162;
    var n400, d1 := d0 / 146097, d0 % 146097;
    var n100 := if d1 / 36524 == 4 then 3 else d1 / 36524;
    var d2 := d1 - 36524 * n100;
    var n4, d3 := d2 / 1461, d2 % 1461;
    var n1 := if d3 / 365 == 4 then 3 else d3 / 365;
    400 * n400 + 100 * n100 + 4 * n4 + n1 + 1
  }

  function MonthIndexOf(day: int): int {
    var year := YearOf(day);
    12 * year + MonthOfYearDay(IsLeap(year), day - DaysBeforeYear(year)) - 1
  }

  function MonthOfYearDay(leap: bool, yearDay: int): (month: int)
    ensures 1 <= month <= 12
    ensures 0 <= yearDay < (if leap then 366 else 365) ==>
      DaysBeforeMonth(leap, month) <= yearDay < DaysBeforeMonth(leap, month + 1)
  {
    var d := if leap && yearDay >= 60 then yearDay - 1 else yearDay;
    if leap && yearDay == 59 then 2
    else if d < 31 then 1 else if d < 59 then 2 else if d < 90 then 3
    else if d < 120 then 4 else if d < 151 then 5 else if d < 181 then 6
    else if d < 212 then 7 else if d < 243 then 8 else if d < 273 then 9
    else if d < 304 then 10 else if d < 334 then 11 else 12
  }

  lemma YearLength(year: int)
    ensures DaysBeforeYear(year + 1) - DaysBeforeYear(year) == if IsLeap(year) then 366 else 365
  {
    DivStep(year, 4);
    DivStep(year, 100);
    DivStep(year, 400);
  }

  lemma DivStep(n: int, d: int)
    requires d > 0
    ensures n / d - (n - 1) / d == if n % d == 0 then 1 else 0
  {
    if n % d == 0 {
      DivUnique(n - 1, d, n / d - 1, d - 1);
    } else {
      DivUnique(n - 1, d, n / d, n % d - 1);
    }
  }

  lemma DivUnique(n: int, d: int, q: int, r: int)
    requires 0 <= r < d && n == q * d + r
    ensures n / d == q && n % d == r
  {
    var q', r' := n / d, n % d;
    assert n == q' * d + r';
    if q > q' {
      Multiple(q - q', d);
    } else if q < q' {
      Multiple(q' - q, d);
    }
  }

  lemma Multiple(k: int, d: int)
    requires k > 0 && d > 0
    ensures k * d >= d
  {
  }

  lemma YearBracket(day: int)
    ensures DaysBeforeYear(YearOf(day)) <= day < DaysBeforeYear(YearOf(day) + 1)
  {
    hide IsLeap, DaysBeforeYear;
    var d0 := day + 719162;
    var n400, d1 := d0 / 146097, d0 % 146097;
    var n100 := if d1 / 36524 == 4 then 3 else d1 / 36524;
    var d2 := d1 - 36524 * n100;
    var n4, d3 := d2 / 1461, d2 % 1461;
    var n1 := if d3 / 365 == 4 then 3 else d3 / 365;
    assert 0 <= n100 <= 3 && 0 <= d2 <= 36524 && 0 <= n4 <= 24 && 0 <= n1 <= 3;
    var year := 400 * n400 + 100 * n100 + 4 * n4 + n1 + 1;
    assert YearOf(day) == year;
    CycleStart(n400, n100, n4, n1);
    LeapCycle(n400, n100, n4, n1);
    YearLength(year);
  }

  lemma CycleStart(n400: int, n100: int, n4: int, n1: int)
    requires 0 <= n100 <= 3 && 0 <= n4 <= 24 && 0 <= n1 <= 3
    ensures DaysBeforeYear(400 * n400 + 100 * n100 + 4 * n4 + n1 + 1)
         == 146097 * n400 + 36524 * n100 + 1461 * n4 + 365 * n1 - 719162
  {
    var past := 400 * n400 + 100 * n100 + 4 * n4 + n1;
    DivUnique(past, 4, 100 * n400 + 25 * n100 + n4, n1);
    DivUnique(past, 100, 4 * n400 + n100, 4 * n4 + n1);
    DivUnique(past, 400, n400, 100 * n100 + 4 * n4 + n1);
  }

  lemma LeapCycle(n400: int, n100: int, n4: int, n1: int)
    requires 0 <= n100 <= 3 && 0 <= n4 <= 24 && 0 <= n1 <= 3
    ensures IsLeap(400 * n400 + 100 * n100 + 4 * n4 + n1 + 1) <==> n1 == 3 && (n4 != 24 || n100 == 3)
  {
    var year := 400 * n400 + 100 * n100 + 4 * n4 + n1 + 1;
    if n1 == 3 {
      DivUnique(year, 4, 100 * n400 + 25 * n100 + n4 + 1, 0);
      if n4 == 24 {
        DivUnique(year, 100, 4 * n400 + n100 + 1, 0);
        if n100 == 3 {
          DivUnique(year, 400, n400 + 1, 0);
        } else {
          DivUnique(year, 400, n400, 100 * n100 + 100);
        }
      } else {
        DivUnique(year, 100, 4 * n400 + n100, 4 * n4 + 4);
      }
    } else {
      DivUnique(year, 4, 100 * n400 + 25 * n100 + n4, n1 + 1);
    }
  }

  lemma MonthStep(year: int, month: int)
    requires 1 <= month <= 12
    ensures DaysBeforeMonth(IsLeap(year), month + 1)
         == DaysBeforeMonth(IsLeap(year), month) + DaysInMonth(year, month)
  {
    hide IsLeap;
  }

  /** The rule that defines the calendar: consecutive month starts are a month length apart. */
  lemma MonthLength(monthIndex: int)
    ensures FirstOfMonth(monthIndex + 1) - FirstOfMonth(monthIndex)
         == DaysInMonth(monthIndex / 12, monthIndex % 12 + 1)
  {
    var year, month := monthIndex / 12, monthIndex % 12 + 1;
    hide IsLeap, DaysBeforeYear, DaysInMonth, DaysBeforeMonth;
    MonthStep(year, month);
    if month == 12 {
      assert (monthIndex + 1) / 12 == year + 1 && (monthIndex + 1) % 12 == 0;
      YearLength(year);
      YearEnds(IsLeap(year));
      YearEnds(IsLeap(year + 1));
    } else {
      assert (monthIndex + 1) / 12 == year && (monthIndex + 1) % 12 == month;
    }
  }

  lemma EpochMonth()
    ensures FirstOfMonth(12 * 1970) == 0
  {
  }

  lemma YearEnds(leap: bool)
    ensures DaysBeforeMonth(leap, 1) == 0
    ensures DaysBeforeMonth(leap, 13) == if leap then 366 else 365
  {
  }

  lemma {:induction false} MonthsIncrease(a: int, b: int)
    requires a < b
    ensures FirstOfMonth(a) + 28 * (b - a) <= FirstOfMonth(b)
    decreases b - a
  {
    hide FirstOfMonth;
    MonthLength(b - 1);
    if a < b - 1 {
      MonthsIncrease(a, b - 1);
    }
  }

  lemma MonthBracket(day: int)
    ensures FirstOfMonth(MonthIndexOf(day)) <= day < FirstOfMonth(MonthIndexOf(day) + 1)
  {
    hide YearOf, DaysBeforeYear, IsLeap, DaysBeforeMonth, MonthOfYearDay, DaysInMonth;
    YearBracket(day);
    var year := YearOf(day);
    YearLength(year);
    var month := MonthOfYearDay(IsLeap(year), day - DaysBeforeYear(year));
    MonthStep(year, month);
    var index := MonthIndexOf(day);
    assert index / 12 == year && index % 12 == month - 1;
    MonthLength(index);
  }

  /** `MonthIndexOf` is the only month whose days contain `day`, so it inverts `FirstOfMonth`. */
  lemma MonthUnique(day: int, monthIndex: int)
    requires FirstOfMonth(monthIndex) <= day < FirstOfMonth(monthIndex + 1)
    ensures MonthIndexOf(day) == monthIndex
  {
    hide FirstOfMonth, MonthIndexOf;
    MonthBracket(day);
    var m := MonthIndexOf(day);
    if m < monthIndex {
      if m + 1 < monthIndex { MonthsIncrease(m + 1, monthIndex); }
    } else if monthIndex < m {
      if monthIndex + 1 < m { MonthsIncrease(monthIndex + 1, m); }
    }
  }
}
