/**
 The proleptic Gregorian calendar over a linear local clock. Day 0 is
 0001-01-01, a Monday; a time is a number of minutes since its midnight.
 JavaScript's Date fields are functions of that number (no DST).
 */
module Calendar {
  type Day = int
  type Minutes = int

  datatype Date = Date(year: int, month: int, day: int)

  predicate Leap(y: int) {
    y % 4 == 0 && (y % 100 != 0 || y % 400 == 0)
  }

  function DaysBeforeYear(y: int): Day {
    365 * (y - 1) + (y - 1) / 4 - (y - 1) / 100 + (y - 1) / 400
  }

  function MonthLength(y: int, m: int): int
    requires 1 <= m <= 12
  {
    if m == 2 then if Leap(y) then 29 else 28
    else if m == 4 || m == 6 || m == 9 || m == 11 then 30
    else 31
  }

  function DaysBeforeMonth(y: int, m: int): int
    requires 1 <= m <= 13
    decreases m
  {
    if m == 1 then 0 else DaysBeforeMonth(y, m - 1) + MonthLength(y, m - 1)
  }

  predicate ValidDate(date: Date) {
    1 <= date.month <= 12 && 1 <= date.day <= MonthLength(date.year, date.month)
  }

  function DayNumber(date: Date): Day
    requires ValidDate(date)
  {
    DaysBeforeYear(date.year) + DaysBeforeMonth(date.year, date.month) + date.day - 1
  }

  lemma Quarters(y: int)
    ensures y / 4 == (y - 1) / 4 + if y % 4 == 0 then 1 else 0
  {
  }

  lemma Centuries(y: int)
    ensures y / 100 == (y - 1) / 100 + if y % 100 == 0 then 1 else 0
    ensures y % 100 == 0 ==> y % 4 == 0
  {
  }

  lemma Cycles(y: int)
    ensures y / 400 == (y - 1) / 400 + if y % 400 == 0 then 1 else 0
    ensures y % 400 == 0 ==> y % 100 == 0
  {
  }

  lemma YearLength(y: int)
    ensures DaysBeforeYear(y + 1) == DaysBeforeYear(y) + if Leap(y) then 366 else 365
  {
    Quarters(y);
    Centuries(y);
    Cycles(y);
    var q, c, f := (y - 1) / 4, (y - 1) / 100, (y - 1) / 400;
    assert DaysBeforeYear(y) == 365 * (y - 1) + q - c + f;
    assert DaysBeforeYear(y + 1) == 365 * y + y / 4 - y / 100 + y / 400;
  }

  lemma MonthsFillTheYear(y: int)
    ensures DaysBeforeMonth(y, 13) == if Leap(y) then 366 else 365
    ensures DaysBeforeYear(y) + DaysBeforeMonth(y, 13) == DaysBeforeYear(y + 1)
  {
    YearLength(y);
    assert DaysBeforeMonth(y, 4) == 90 + if Leap(y) then 1 else 0 by { assert DaysBeforeMonth(y, 2) == 31; }
    assert DaysBeforeMonth(y, 7) == DaysBeforeMonth(y, 4) + 91 by { assert DaysBeforeMonth(y, 5) == DaysBeforeMonth(y, 4) + 30; }
    assert DaysBeforeMonth(y, 10) == DaysBeforeMonth(y, 7) + 92 by { assert DaysBeforeMonth(y, 8) == DaysBeforeMonth(y, 7) + 31; }
    assert DaysBeforeMonth(y, 13) == DaysBeforeMonth(y, 10) + 92 by { assert DaysBeforeMonth(y, 11) == DaysBeforeMonth(y, 10) + 31; }
  }

  /** The year a day falls in, found from its 400-year cycle. */
  function YearFrom(y: int, day: Day): (r: int)
    requires DaysBeforeYear(y) <= day
    ensures DaysBeforeYear(r) <= day < DaysBeforeYear(r + 1)
    decreases day - DaysBeforeYear(y)
  {
    YearLength(y);
    if day < DaysBeforeYear(y + 1) then y else YearFrom(y + 1, day)
  }

  lemma CycleStart(c: int)
    ensures DaysBeforeYear(400 * c + 1) == 146097 * c
  {
    assert 400 * c / 4 == 100 * c;
    assert 400 * c / 100 == 4 * c;
    assert 400 * c / 400 == c;
  }

  function YearOf(day: Day): (r: int)
    ensures DaysBeforeYear(r) <= day < DaysBeforeYear(r + 1)
  {
    CycleStart(day / 146097);
    YearFrom(400 * (day / 146097) + 1, day)
  }

  function MonthFrom(y: int, m: int, offset: int): (r: int)
    requires 1 <= m <= 12 && DaysBeforeMonth(y, m) <= offset < DaysBeforeMonth(y, 13)
    ensures 1 <= r <= 12 && DaysBeforeMonth(y, r) <= offset < DaysBeforeMonth(y, r + 1)
    decreases 12 - m
  {
    if offset < DaysBeforeMonth(y, m + 1) then m else MonthFrom(y, m + 1, offset)
  }

  /** getFullYear(), getMonth() + 1 and getDate() of a day. */
  function CivilDate(day: Day): (r: Date)
    ensures ValidDate(r) && DayNumber(r) == day
  {
    var y := YearOf(day);
    MonthsFillTheYear(y);
    var offset := day - DaysBeforeYear(y);
    var m := MonthFrom(y, 1, offset);
    Date(y, m, offset - DaysBeforeMonth(y, m) + 1)
  }

  /** getDay(): 0 is Sunday. */
  function DayOfWeek(day: Day): (w: int)
    ensures 0 <= w <= 6
  {
    (day + 1) % 7
  }

  lemma {:induction false} YearsGrow(y: int, z: int)
    requires y <= z
    ensures DaysBeforeYear(z) >= DaysBeforeYear(y) + 365 * (z - y)
    decreases z - y
  {
    if y < z {
      YearLength(y);
      YearsGrow(y + 1, z);
    }
  }

  lemma {:induction false} MonthsGrow(y: int, m: int, n: int)
    requires 1 <= m <= n <= 13
    ensures DaysBeforeMonth(y, n) >= DaysBeforeMonth(y, m) + 28 * (n - m)
    decreases n - m
  {
    if m < n { MonthsGrow(y, m, n - 1); }
  }

  /** A date of a year lies within that year. */
  lemma DateInYear(date: Date)
    requires ValidDate(date)
    ensures DaysBeforeYear(date.year) <= DayNumber(date) < DaysBeforeYear(date.year + 1)
  {
    MonthsGrow(date.year, 1, date.month);
    MonthsGrow(date.year, date.month + 1, 13);
    MonthsFillTheYear(date.year);
  }

  /** Dates and days are in bijection: every valid date is the date of its day. */
  lemma CivilDateOfDay(date: Date)
    requires ValidDate(date)
    ensures CivilDate(DayNumber(date)) == date
  {
    var r := CivilDate(DayNumber(date));
    DateInYear(date);
    DateInYear(r);
    SameYear(date, r);
    SameMonth(date, r);
  }

  /** The lengths of the months alternate, July and August apart. */
  lemma MonthsAlternate(y: int, m: int)
    requires 1 <= m <= 12
    ensures MonthLength(y, m) == if m == 2 then (if Leap(y) then 29 else 28) else 30 + (m + m / 8) % 2
  {
  }

  /** Two weekdays that are known: the Unix epoch was a Thursday, and so was the leap day of 2024. */
  lemma KnownWeekdays(epoch: Date, leapDay: Date)
    requires epoch == Date(1970, 1, 1) && leapDay == Date(2024, 2, 29)
    ensures ValidDate(epoch) && DayOfWeek(DayNumber(epoch)) == 4
    ensures ValidDate(leapDay) && DayOfWeek(DayNumber(leapDay)) == 4
  {
    assert DaysBeforeYear(1970) == 719162 && DaysBeforeYear(2024) == 738885;
    assert DaysBeforeMonth(2024, 1) == 0 && DaysBeforeMonth(2024, 2) == 31;
  }

  lemma SameYear(date: Date, r: Date)
    requires DaysBeforeYear(date.year) < DaysBeforeYear(r.year + 1)
    requires DaysBeforeYear(r.year) < DaysBeforeYear(date.year + 1)
    ensures date.year == r.year
  {
    if r.year < date.year { YearsGrow(r.year + 1, date.year); }
    if date.year < r.year { YearsGrow(date.year + 1, r.year); }
  }

  lemma SameMonth(date: Date, r: Date)
    requires ValidDate(date) && ValidDate(r) && date.year == r.year && DayNumber(date) == DayNumber(r)
    ensures date == r
  {
    if r.month < date.month { MonthsGrow(date.year, r.month + 1, date.month); }
    if date.month < r.month { MonthsGrow(date.year, date.month + 1, r.month); }
  }

  /** The same date one year earlier is 365 or 366 days back, when it exists. */
  lemma YearEarlier(date: Date)
    requires ValidDate(date) && date.day <= MonthLength(date.year - 1, date.month)
    ensures 365 <= DayNumber(date) - DayNumber(date.(year := date.year - 1)) <= 366
  {
    var y, m := date.year, date.month;
    YearLength(y - 1);
    LeapShift(y - 1, m);
    LeapShift(y, m);
  }

  lemma {:induction false} LeapShift(y: int, m: int)
    requires 1 <= m <= 13
    ensures DaysBeforeMonth(y, m) == DaysBeforeMonth(1, m) + if m > 2 && Leap(y) then 1 else 0
  {
    if m > 1 { LeapShift(y, m - 1); }
  }

  function MinuteOf(t: Minutes): int { t % 60 }
  function HourOf(t: Minutes): int { t / 60 % 24 }
  function DayOf(t: Minutes): Day { t / 1440 }

  function At(day: Day, hour: int, minute: int): Minutes {
    day * 1440 + hour * 60 + minute
  }

  lemma AtFields(day: Day, hour: int, minute: int)
    requires 0 <= hour <= 23 && 0 <= minute <= 59
    ensures var t := At(day, hour, minute); DayOf(t) == day && HourOf(t) == hour && MinuteOf(t) == minute
  {
    var t := At(day, hour, minute);
    assert t == 60 * (24 * day + hour) + minute;
    assert t / 60 == 24 * day + hour;
    assert t == 1440 * day + (60 * hour + minute);
  }

  lemma FieldsAt(t: Minutes)
    ensures At(DayOf(t), HourOf(t), MinuteOf(t)) == t
    ensures 0 <= HourOf(t) <= 23 && 0 <= MinuteOf(t) <= 59
  {
    var h := t / 60;
    assert t == 60 * h + MinuteOf(t) && h == 24 * (h / 24) + HourOf(t);
    assert t == 1440 * (h / 24) + (60 * HourOf(t) + MinuteOf(t));
  }
}
