/** The shift of the clock's date and time by a time zone, in eight-bit arithmetic. */
module Calendar {
  import opened Gregorian

  // The values of the clock registers, and what getCurrentDateTime hands out.
  datatype Clock = Clock(century: nat, year: nat, month: nat, day: nat, hours: nat, minutes: nat, seconds: nat)

  datatype DateTime = DateTime(year: int, month: int, day: int, hours: int, minutes: int, seconds: int)

  datatype Zone = Zone(hours: int, minutes: int)

  // Conversion to int8_t, uint8_t and uint16_t, and the remainder that truncates towards
  // zero.
  function Int8(x: int): int {
    (x + 128) % 256 - 128
  }

  function UInt8(x: int): int {
    x % 256
  }

  function UInt16(x: int): int {
    x % 65536
  }

  function Remainder(x: int, y: int): int
    requires y > 0
  {
    if x >= 0 then x % y else -(-x % y)
  }

  lemma Fitting(x: int)
    ensures -128 <= x < 128 ==> Int8(x) == x
    ensures 128 <= x < 384 ==> Int8(x) == x - 256
    ensures 0 <= x < 256 ==> UInt8(x) == x
    ensures -128 <= x < 0 ==> UInt8(x) == x + 256
    ensures 0 <= x < 65536 ==> UInt16(x) == x
    ensures -65536 <= x < 0 ==> UInt16(x) == x + 65536
  {
  }

  predicate IsLeapYear(year: int) {
    year % 400 == 0 || (year % 4 == 0 && year % 100 != 0)
  }

  const MONTH_DAYS := [31, 28, 31, 30, 31, 30, 31, 31, 30, 31, 30, 31]

  function MonthDays(leap: bool, month: int): (d: int)
    requires 1 <= month <= 12
    ensures 28 <= d <= 31
  {
    if leap && month == 2 then 29 else MONTH_DAYS[month - 1]
  }

  // The table and the leap rule of the program are those of the calendar.
  lemma TableIsRight(year: int, month: int)
    requires 1 <= month <= 12
    ensures FirstOfNext(year, month) - FirstDay(year, month) == MonthDays(IsLeapYear(year), month)
  {
    MonthLength(year, month);
    Multiples(year);
  }

  // Counted year by year the years have as many days.
  function DaysBeforeYear(year: nat): nat {
    if year == 0 then 0 else DaysBeforeYear(year - 1) + if IsLeapYear(year - 1) then 366 else 365
  }

  lemma {:induction false} YearsCounted(year: nat)
    ensures FirstDay(year, 1) == DaysBeforeYear(year) + 1
    decreases year
  {
    if year > 0 {
      YearsCounted(year - 1);
      YearLength(year - 1);
    }
  }

  lemma YearLength(year: int)
    ensures FirstDay(year + 1, 1) - FirstDay(year, 1) == if IsLeapYear(year) then 366 else 365
  {
    NextQuotient(year, 4);
    NextQuotient(year, 100);
    NextQuotient(year, 400);
    Multiples(year);
  }

  predicate Valid(t: DateTime) {
    ValidDate(t.year, t.month, t.day) && 0 <= t.hours < 24 && 0 <= t.minutes < 60
  }

  // The minutes since the beginning of year 0.
  function Minutes(t: DateTime): int
    requires Valid(t)
  {
    DayNumber(t.year, t.month, t.day) * 1440 + t.hours * 60 + t.minutes
  }

  function Read(c: Clock): DateTime {
    DateTime(c.century * 100 + c.year, c.month, c.day, c.hours, c.minutes, c.seconds)
  }

  // Dates by the program's table.
  lemma ValidByTable(year: int, month: int, day: int)
    ensures ValidDate(year, month, day) <==>
              0 <= year && 1 <= month <= 12 && 1 <= day <= MonthDays(IsLeapYear(year), month)
  {
    if 1 <= month <= 12 {
      TableIsRight(year, month);
    }
  }

  lemma DecemberDays(leap: bool)
    ensures MonthDays(leap, 12) == 31
  {
  }

  // The days before and after the first of a month.
  lemma FirstOfMonth(year: int, month: int)
    requires 1 <= month <= 12
    ensures month > 1 ==>
              DayNumber(year, month, 1) == DayNumber(year, month - 1, MonthDays(IsLeapYear(year), month - 1)) + 1
    ensures month == 1 ==> DayNumber(year, 1, 1) == DayNumber(year - 1, 12, 31) + 1
  {
    if month > 1 {
      TableIsRight(year, month - 1);
    } else {
      TableIsRight(year - 1, 12);
    }
  }

  lemma SameMonth(year: int, month: int, day: int)
    ensures DayNumber(year, month, day) == DayNumber(year, month, 1) + day - 1
  {
  }

  // The date part when the hour has run below zero or past 23. Before year 0 comes the last
  // one of sixteen bits.
  method PreviousDay(year: int, month: int, day: int) returns (y: int, m: int, d: int)
    requires ValidDate(year, month, day) && year < 65536
    ensures ValidDate(y, m, d) && y < 65536
    ensures if (year, month, day) == (0, 1, 1) then (y, m, d) == (65535, 12, 31)
            else DayNumber(y, m, d) == DayNumber(year, month, day) - 1
  {
    hide Int8, UInt16, DayNumber, ValidDate, IsLeapYear, MonthDays;
    y, m, d := year, month, day;
    ValidByTable(year, month, day);
    Fitting(m - 1);
    Fitting(y - 1);
    Fitting(d - 1);
    if d == 1 {
      FirstOfMonth(year, month);
      m := Int8(m - 1);
      if m == 0 {
        y := UInt16(y - 1);
        m := 12;
      }
      DecemberDays(IsLeapYear(y));
      Fitting(MonthDays(IsLeapYear(y), m));
      d := Int8(MonthDays(IsLeapYear(y), m));
    } else {
      SameMonth(y, m, d);
      SameMonth(y, m, d - 1);
      d := Int8(d - 1);
    }
    ValidByTable(y, m, d);
  }

  method NextDay(year: int, month: int, day: int) returns (y: int, m: int, d: int)
    requires ValidDate(year, month, day) && year < 65535
    ensures ValidDate(y, m, d) && y < 65536 && DayNumber(y, m, d) == DayNumber(year, month, day) + 1
  {
    hide Int8, UInt16, DayNumber, ValidDate, IsLeapYear, MonthDays;
    y, m, d := year, month, day;
    ValidByTable(year, month, day);
    Fitting(m + 1);
    Fitting(y + 1);
    Fitting(d + 1);
    DecemberDays(IsLeapYear(y));
    if d == MonthDays(IsLeapYear(y), m) {
      m := Int8(m + 1);
      if m > 12 {
        y := UInt16(y + 1);
        m := 1;
      }
      d := 1;
      FirstOfMonth(y, m);
    } else {
      SameMonth(y, m, d);
      SameMonth(y, m, d + 1);
      d := Int8(d + 1);
    }
    ValidByTable(y, m, d);
  }

  // Where eight bits and one day's correction are enough: the minutes add up to -60 or more
  // and to no more than 67, since 60 more than that do not fit into eight bits; the shift
  // leads to the day before, the same day or the day after; and not before year 0.
  predicate Manageable(clock: Clock, zone: Zone) {
    var m := clock.minutes + zone.minutes;
    var shift := (clock.hours + zone.hours) * 60 + m;
    && -60 <= m <= 67 && -1440 <= shift < 2880
    && (clock.century * 100 + clock.year == 0 && clock.month == 1 && clock.day == 1 ==> shift >= 0)
  }

  // getCurrentDateTime. The result is the valid date and time that lies the zone's offset
  // after the clock's, if and only if that is manageable.
  method GetCurrentDateTime(clock: Clock, zone: Zone) returns (t: DateTime)
    requires clock.century < 256 && clock.year < 256 && Valid(Read(clock)) && clock.seconds < 60
    requires -128 <= zone.hours < 128 && -128 <= zone.minutes < 128
    ensures Valid(t) && Minutes(t) == Minutes(Read(clock)) + zone.hours * 60 + zone.minutes <==> Manageable(clock, zone)
    ensures t.seconds == clock.seconds
  {
    hide Int8, UInt8, UInt16, DayNumber, ValidDate, Remainder, Manageable;
    ClockFits(clock);
    var h := Int8(Int8(clock.hours) + zone.hours);
    var m := Int8(Int8(clock.minutes) + zone.minutes);
    var day, month := Int8(clock.day), Int8(clock.month);
    var year := UInt16(clock.year + clock.century * 100);
    if m < 0 {
      h := Int8(h - 1);
    }
    if m >= 60 {
      h := Int8(h + 1);
    }
    ghost var hour, days := h, 0;
    if h < 0 {
      year, month, day := PreviousDay(year, month, day);
      days := -1;
    }
    if h >= 24 {
      year, month, day := NextDay(year, month, day);
      days := 1;
    }
    DateFits(year, month, day);
    h := Int8(h + 24);
    h := Int8(Remainder(h, 24));
    m := Int8(m + 60);
    m := Int8(Remainder(m, 60));
    t := DateTime(UInt16(year), UInt8(month), UInt8(day), UInt8(h), UInt8(m), clock.seconds);
    assert t.hours == HourOf(hour) && t.minutes == MinuteOf(Int8(clock.minutes + zone.minutes));
    Verdict(clock, zone, t, days);
  }

  // The last lines for hours and for minutes.
  function HourOf(h: int): int {
    UInt8(Int8(Remainder(Int8(h + 24), 24)))
  }

  function MinuteOf(m: int): int {
    UInt8(Int8(Remainder(Int8(m + 60), 60)))
  }

  // The hour once minutes below 0 or past 59 are accounted for.
  function HourFor(hours: int, minutes: int): int {
    var h, m := Int8(hours), Int8(minutes);
    if m < 0 then Int8(h - 1) else if m >= 60 then Int8(h + 1) else h
  }

  lemma ClockFits(clock: Clock)
    requires clock.century < 256 && clock.year < 256 && Valid(Read(clock))
    ensures Int8(clock.hours) == clock.hours && Int8(clock.minutes) == clock.minutes
    ensures Int8(clock.day) == clock.day && Int8(clock.month) == clock.month
    ensures UInt16(clock.year + clock.century * 100) == clock.year + clock.century * 100 < 65000
    ensures ValidDate(clock.year + clock.century * 100, clock.month, clock.day)
  {
    hide Int8, UInt16;
    Fitting(clock.hours);
    Fitting(clock.minutes);
    Fitting(clock.day);
    Fitting(clock.month);
    Fitting(clock.year + clock.century * 100);
  }

  // When hours and minutes come out right. The date is off by as many days as it should be
  // if and only if the whole shift lies within the day before, this day and the day after.
  lemma ClockVerdict(hours: int, minutes: int)
    requires -128 <= hours < 151 && -128 <= minutes < 187
    ensures var h, r, m := HourFor(hours, minutes), HourOf(HourFor(hours, minutes)), MinuteOf(Int8(minutes));
            var days := if h < 0 then -1 else if h >= 24 then 1 else 0;
            (r < 24 && m < 60 && days * 1440 + r * 60 + m == hours * 60 + minutes) <==>
              -60 <= minutes <= 67 && -1440 <= hours * 60 + minutes < 2880
    ensures 0 <= HourOf(HourFor(hours, minutes)) && 0 <= MinuteOf(Int8(minutes))
    ensures -60 <= minutes <= 67 && -1440 <= hours * 60 + minutes < 2880 ==>
              (HourFor(hours, minutes) < 0 <==> hours * 60 + minutes < 0)
  {
    hide HourOf, MinuteOf, Int8;
    Carried(hours, minutes);
    MinutesBack(minutes);
    HoursBack(HourFor(hours, minutes));
  }

  lemma Carried(hours: int, minutes: int)
    requires -128 <= hours < 151 && -128 <= minutes < 187
    ensures var h := HourFor(hours, minutes);
            && -128 <= h < 128
            && (-60 <= minutes <= 67 && -1440 <= hours * 60 + minutes < 2880 ==>
                  h == hours + if minutes < 0 then -1 else if minutes >= 60 then 1 else 0)
            && (minutes == -120 && -1440 <= hours * 60 + minutes < 2880 ==> h == hours - 1)
  {
    Fitting(minutes);
    Fitting(hours);
    Fitting(hours - 1);
    Fitting(hours + 1);
  }

  lemma Verdict(clock: Clock, zone: Zone, t: DateTime, days: int)
    requires clock.century < 256 && clock.year < 256 && Valid(Read(clock))
    requires -128 <= zone.hours < 128 && -128 <= zone.minutes < 128
    requires var h := HourFor(clock.hours + zone.hours, clock.minutes + zone.minutes);
             && days == (if h < 0 then -1 else if h >= 24 then 1 else 0)
             && t.hours == HourOf(h) && t.minutes == MinuteOf(Int8(clock.minutes + zone.minutes))
    requires ValidDate(t.year, t.month, t.day)
    requires var (y, m, d) := (clock.century * 100 + clock.year, clock.month, clock.day);
             if days < 0 && (y, m, d) == (0, 1, 1) then t.year == 65535
             else DayNumber(t.year, t.month, t.day) == DayNumber(y, m, d) + days
    ensures Valid(t) && Minutes(t) == Minutes(Read(clock)) + zone.hours * 60 + zone.minutes <==> Manageable(clock, zone)
  {
    hide HourOf, MinuteOf, Int8, HourFor, DayNumber;
    var (y, m, d) := (clock.century * 100 + clock.year, clock.month, clock.day);
    ClockVerdict(clock.hours + zone.hours, clock.minutes + zone.minutes);
    if days < 0 && (y, m, d) == (0, 1, 1) {
      LongAfter(t.year, t.month, t.day);
    }
  }

  lemma LongAfter(year: int, month: int, day: int)
    requires ValidDate(year, month, day) && year == 65535
    ensures DayNumber(0, 1, 1) == 1 && DayNumber(year, month, day) > 365
  {
    hide FirstDay, MonthFirst, FirstOfNext;
    DayOne();
    InMonth(year, month, day);
    MonthsGrow(0, 12 * year + month - 1);
  }

  lemma DateFits(year: int, month: int, day: int)
    requires ValidDate(year, month, day) && year < 65536
    ensures UInt16(year) == year && UInt8(month) == month && UInt8(day) == day
  {
    hide ValidDate, FirstDay, FirstOfNext;
    ValidByTable(year, month, day);
  }

  // What the last lines make of an hour; from -24 to 47 they do what the date part expects.
  lemma HoursBack(h: int)
    requires -128 <= h < 128
    ensures 0 <= HourOf(h) && (h == 48 ==> HourOf(h) == 0)
    ensures -24 <= h < 48 ==> HourOf(h) == if h < 0 then h + 24 else if h >= 24 then h - 24 else h
  {
    Fitting(h + 24);
    if -24 <= h <= 48 {
      Fitting((h + 24) % 24);
    }
  }

  // And of minutes: outside -60 to 67 what comes out is no minute, or 0 by accident.
  lemma MinutesBack(m: int)
    requires -128 <= m < 187
    ensures var r := MinuteOf(Int8(m));
            && 0 <= r
            && if -60 <= m <= 67 then r == if m < 0 then m + 60 else if m >= 60 then m - 60 else m
               else r >= 60 || (r == 0 && m in {-120, 76, 136})
  {
    hide Int8, UInt8;
    Fitting(m);
    Fitting(Int8(m) + 60);
    var x := Int8(Int8(m) + 60);
    if x >= 0 {
      Fitting(x % 60);
    } else {
      Fitting(-(-x % 60));
    }
  }

  // No other valid date and time has the same number of minutes.
  lemma MinutesUnique(t: DateTime, u: DateTime)
    requires Valid(t) && Valid(u) && Minutes(t) == Minutes(u) && t.seconds == u.seconds
    ensures t == u
  {
    DayNumberUnique(t.year, t.month, t.day, u.year, u.month, u.day);
  }

  // Half past midnight on the first of May 2024 is, three hours to the west, half past nine
  // in the evening of the thirtieth of April.
  lemma EveOfMay(clock: Clock, t: DateTime)
    requires clock == Clock(20, 24, 5, 1, 0, 30, 0)
    ensures Valid(Read(clock)) && Manageable(clock, Zone(-3, 0))
    ensures Valid(t) && t.seconds == 0 && Minutes(t) == Minutes(Read(clock)) - 180 <==>
              t == DateTime(2024, 4, 30, 21, 30, 0)
  {
    hide ValidDate, DayNumber;
    var u := DateTime(2024, 4, 30, 21, 30, 0);
    ValidByTable(2024, 5, 1);
    ValidByTable(2024, 4, 30);
    FirstOfMonth(2024, 5);
    assert MonthDays(IsLeapYear(2024), 4) == 30 && MonthDays(IsLeapYear(2024), 5) == 31;
    if Valid(t) && t.seconds == 0 && Minutes(t) == Minutes(u) {
      MinutesUnique(t, u);
    }
  }
}
