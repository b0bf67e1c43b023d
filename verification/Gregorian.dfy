/** The Gregorian calendar by formula: days are counted with years that begin in March, so that
    the leap day comes last. Nothing here knows how long a month is. */
module Gregorian {

  // Years, and months from 0 to 11, counted from March.
  function MarchYear(year: int, month: int): int {
    if month <= 2 then year - 1 else year
  }

  function MarchMonth(month: int): int {
    if month <= 2 then month + 9 else month - 3
  }

  // The number of the first day of a month; the first of January of year 0 is day 1. A year
  // has 365 days and every fourth one more, but not every hundredth, but every four
  // hundredth; five months from March on have 153 days.
  function FirstDay(year: int, month: int): int {
    var y := MarchYear(year, month);
    365 * y + y / 4 - y / 100 + y / 400 + (153 * MarchMonth(month) + 2) / 5 + 61
  }

  function FirstOfNext(year: int, month: int): int {
    if month == 12 then FirstDay(year + 1, 1) else FirstDay(year, month + 1)
  }

  predicate ValidDate(year: int, month: int, day: int) {
    0 <= year && 1 <= month <= 12 && 1 <= day <= FirstOfNext(year, month) - FirstDay(year, month)
  }

  function DayNumber(year: int, month: int, day: int): int {
    FirstDay(year, month) + day - 1
  }

  // Dividing the next number gives one more at the multiples.
  lemma NextQuotient(y: int, k: int)
    requires k > 0
    ensures y / k - (y - 1) / k == if y % k == 0 then 1 else 0
  {
    var q, r := y / k, y % k;
    if r == 0 {
      assert y - 1 == k * (q - 1) + (k - 1);
      QuotientIs(y - 1, k, q - 1, k - 1);
    } else {
      assert y - 1 == k * q + (r - 1);
      QuotientIs(y - 1, k, q, r - 1);
    }
  }

  lemma QuotientIs(x: int, k: int, q: int, r: int)
    requires k > 0 && x == k * q + r && 0 <= r < k
    ensures x / k == q
  {
    var d := x / k - q;
    assert x == k * (x / k) + x % k;
    assert k * d == r - x % k;
    assert d >= 1 ==> k * d >= k;
    assert d <= -1 ==> k * d <= -k;
  }

  // The length of each month, by the leap rule.
  lemma MonthLength(year: int, month: int)
    requires 1 <= month <= 12
    ensures FirstOfNext(year, month) - FirstDay(year, month) ==
            if month == 2 then
              if year % 400 == 0 then 29 else if year % 100 == 0 then 28 else if year % 4 == 0 then 29 else 28
            else if month == 4 || month == 6 || month == 9 || month == 11 then 30 else 31
  {
    if month == 2 {
      NextQuotient(year, 4);
      NextQuotient(year, 100);
      NextQuotient(year, 400);
      Multiples(year);
    }
  }

  lemma Multiples(year: int)
    ensures year % 400 == 0 ==> year % 100 == 0
    ensures year % 100 == 0 ==> year % 4 == 0
  {
    if year % 400 == 0 {
      QuotientIs(year, 100, 4 * (year / 400), 0);
    }
    if year % 100 == 0 {
      QuotientIs(year, 4, 25 * (year / 100), 0);
    }
  }

  // The calendar repeats itself after 400 years, which have 146097 days.
  lemma FourHundredYears(year: int, month: int)
    ensures FirstDay(year + 400, month) == FirstDay(year, month) + 146097
  {
    var y := MarchYear(year, month);
    QuotientIs(y + 400, 4, y / 4 + 100, y % 4);
    QuotientIs(y + 400, 100, y / 100 + 4, y % 100);
    QuotientIs(y + 400, 400, y / 400 + 1, y % 400);
  }

  // The leap days of some years.
  lemma LeapDays()
    ensures ValidDate(2000, 2, 29) && ValidDate(2024, 2, 29) && !ValidDate(1900, 2, 29) && !ValidDate(2100, 2, 29)
    ensures !ValidDate(2023, 2, 29) && !ValidDate(2024, 4, 31) && ValidDate(2024, 5, 31)
  {
    hide FirstDay, FirstOfNext;
    MonthLength(2000, 2);
    MonthLength(2024, 2);
    MonthLength(1900, 2);
    MonthLength(2100, 2);
    MonthLength(2023, 2);
    MonthLength(2024, 4);
    MonthLength(2024, 5);
  }

  // All months in a row.
  function MonthFirst(t: int): int {
    FirstDay(t / 12, t % 12 + 1)
  }

  lemma MonthAfter(t: int)
    ensures MonthFirst(t + 1) == FirstOfNext(t / 12, t % 12 + 1)
    ensures MonthFirst(t) + 28 <= MonthFirst(t + 1)
  {
    var q, r := t / 12, t % 12;
    if r == 11 {
      QuotientIs(t + 1, 12, q + 1, 0);
    } else {
      QuotientIs(t + 1, 12, q, r + 1);
    }
    MonthLength(q, r + 1);
  }

  lemma {:induction false} MonthsGrow(t: int, u: int)
    requires t <= u
    ensures MonthFirst(t) + 28 * (u - t) <= MonthFirst(u)
    decreases u - t
  {
    if t < u {
      MonthAfter(u - 1);
      MonthsGrow(t, u - 1);
    }
  }

  lemma InMonth(year: int, month: int, day: int)
    requires ValidDate(year, month, day)
    ensures var t := 12 * year + month - 1; MonthFirst(t) <= DayNumber(year, month, day) < MonthFirst(t + 1)
  {
    hide FirstDay;
    var t := 12 * year + month - 1;
    QuotientIs(t, 12, year, month - 1);
    MonthAfter(t);
  }

  // No two dates have the same number.
  lemma DayNumberUnique(y: int, m: int, d: int, y': int, m': int, d': int)
    requires ValidDate(y, m, d) && ValidDate(y', m', d') && DayNumber(y, m, d) == DayNumber(y', m', d')
    ensures y == y' && m == m' && d == d'
  {
    hide FirstDay, FirstOfNext, MonthFirst;
    InMonth(y, m, d);
    InMonth(y', m', d');
    var t, t' := 12 * y + m - 1, 12 * y' + m' - 1;
    if t < t' {
      MonthsGrow(t + 1, t');
    } else if t' < t {
      MonthsGrow(t' + 1, t);
    }
  }

  lemma DayOne()
    ensures DayNumber(0, 1, 1) == 1 && FirstDay(0, 1) == 1 && MonthFirst(0) == 1
  {
    QuotientIs(-1, 4, -1, 3);
    QuotientIs(-1, 100, -1, 99);
    QuotientIs(-1, 400, -1, 399);
    QuotientIs(0, 12, 0, 0);
  }

  // Every day from day 1 on has a date.
  lemma {:induction false} EveryDay(n: int) returns (year: int, month: int, day: int)
    requires n >= 1
    ensures ValidDate(year, month, day) && DayNumber(year, month, day) == n
    decreases n
  {
    if n == 1 {
      year, month, day := 0, 1, 1;
      MonthLength(0, 1);
    } else {
      year, month, day := EveryDay(n - 1);
      MonthLength(year, month);
      if day == FirstOfNext(year, month) - FirstDay(year, month) {
        if month == 12 {
          year, month := year + 1, 1;
        } else {
          month := month + 1;
        }
        day := 1;
        MonthLength(year, month);
      } else {
        day := day + 1;
      }
    }
  }
}
