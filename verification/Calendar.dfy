/**
 The proleptic Gregorian calendar under a fixed offset, as Go's time package computes it: days are numbered from
 1970-01-01, and a minute is numbered from the midnight that starts that day.
 */
module Calendar {
  import opened Remainders

  datatype Date = Date(year: int, month: int, day: int)

  predicate Leap(y: int) {
    y % 4 == 0 && (y % 100 != 0 || y % 400 == 0)
  }

  function DaysIn(y: int, m: int): int {
    if m == 2 then (if Leap(y) then 29 else 28)
    else if m == 4 || m == 6 || m == 9 || m == 11 then 30
    else 31
  }

  predicate Real(d: Date) {
    1 <= d.month <= 12 && 1 <= d.day <= DaysIn(d.year, d.month)
  }

  /** The day after, by turning the page. */
  function Tomorrow(d: Date): (n: Date)
    requires Real(d)
    ensures Real(n)
  {
    if d.day < DaysIn(d.year, d.month) then Date(d.year, d.month, d.day + 1)
    else if d.month < 12 then Date(d.year, d.month + 1, 1)
    else Date(d.year + 1, 1, 1)
  }

  function Yesterday(d: Date): (p: Date)
    requires Real(d)
    ensures Real(p) && Tomorrow(p) == d
  {
    if d.day > 1 then Date(d.year, d.month, d.day - 1)
    else if d.month > 1 then Date(d.year, d.month - 1, DaysIn(d.year, d.month - 1))
    else Date(d.year - 1, 12, 31)
  }

  const EPOCH := Date(1970, 1, 1)

  /** The date of day `n`, counted from the epoch one day at a time. */
  function Civil(n: int): (d: Date)
    ensures Real(d)
    decreases if n < 0 then -n else n
  {
    if n == 0 then EPOCH else if n > 0 then Tomorrow(Civil(n - 1)) else Yesterday(Civil(n + 1))
  }

  function LeapsBefore(y: int): int {
    (y - 1) / 4 - (y - 1) / 100 + (y - 1) / 400
  }

  lemma LeapsCount(y: int)
    ensures LeapsBefore(y + 1) == LeapsBefore(y) + if Leap(y) then 1 else 0
  {
    OneMoreMultiple(y, 4);
    OneMoreMultiple(y, 100);
    OneMoreMultiple(y, 400);
    if y % 100 == 0 {
      Fourfold(25 * (y / 100));
    }
    if y % 400 == 0 {
      Hundredfold(4 * (y / 400));
    }
  }

  lemma Fourfold(q: int)
    ensures 4 * q % 4 == 0
  {
  }

  lemma Hundredfold(q: int)
    ensures 100 * q % 100 == 0
  {
  }

  lemma OneMoreMultiple(y: int, k: int)
    requires k == 4 || k == 100 || k == 400
    ensures y / k == (y - 1) / k + if y % k == 0 then 1 else 0
  {
  }

  /** Days of the year before month `m`. */
  function DaysBefore(y: int, m: int): int
    requires 1 <= m <= 13
    decreases m
  {
    if m == 1 then 0 else DaysBefore(y, m - 1) + DaysIn(y, m - 1)
  }

  lemma YearLength(y: int)
    ensures DaysBefore(y, 13) == 365 + if Leap(y) then 1 else 0
  {
    assert DaysBefore(y, 4) == 90 + if Leap(y) then 1 else 0;
    assert DaysBefore(y, 7) == DaysBefore(y, 4) + 91;
    assert DaysBefore(y, 10) == DaysBefore(y, 7) + 92;
    assert DaysBefore(y, 13) == DaysBefore(y, 10) + 92;
  }

  /** The day number of a date in closed form, as time.Date computes it. */
  function DayNumber(d: Date): int
    requires 1 <= d.month <= 12
  {
    365 * (d.year - 1970) + LeapsBefore(d.year) - LeapsBefore(1970) + DaysBefore(d.year, d.month) + d.day - 1
  }

  lemma TomorrowIsNext(d: Date)
    requires Real(d)
    ensures DayNumber(Tomorrow(d)) == DayNumber(d) + 1
  {
    if d.day == DaysIn(d.year, d.month) && d.month == 12 {
      LeapsCount(d.year);
      YearLength(d.year);
      assert DaysBefore(d.year, 13) == DaysBefore(d.year, 12) + 31;
    }
  }

  lemma {:induction false} NumberOfCivil(n: int)
    ensures DayNumber(Civil(n)) == n
    decreases if n < 0 then -n else n
  {
    if n > 0 {
      NumberOfCivil(n - 1);
      TomorrowIsNext(Civil(n - 1));
    } else if n < 0 {
      NumberOfCivil(n + 1);
      TomorrowIsNext(Civil(n));
    }
  }

  lemma CivilStep(n: int)
    ensures Civil(n + 1) == Tomorrow(Civil(n))
  {
  }

  predicate Earlier(a: Date, b: Date) {
    a.year < b.year || (a.year == b.year && (a.month < b.month || (a.month == b.month && a.day < b.day)))
  }

  lemma {:induction false} LaterMonthNumber(y: int, m: int, n: int)
    requires 1 <= m < n <= 13
    ensures DaysBefore(y, m) + DaysIn(y, m) <= DaysBefore(y, n)
    decreases n
  {
    if m < n - 1 {
      LaterMonthNumber(y, m, n - 1);
    }
  }

  lemma {:induction false} LaterYearNumber(y: int, z: int)
    requires y < z
    ensures 365 * y + LeapsBefore(y) + DaysBefore(y, 13) <= 365 * z + LeapsBefore(z)
    decreases z - y
  {
    LeapsCount(z - 1);
    YearLength(z - 1);
    if y < z - 1 {
      LaterYearNumber(y, z - 1);
    }
  }

  lemma EarlierIsSmaller(a: Date, b: Date)
    requires Real(a) && Real(b) && Earlier(a, b)
    ensures DayNumber(a) < DayNumber(b)
  {
    if a.year < b.year {
      LaterYearNumber(a.year, b.year);
      LaterMonthNumber(a.year, a.month, 13);
      DaysBeforePositive(b.year, b.month);
    } else if a.month < b.month {
      LaterMonthNumber(a.year, a.month, b.month);
    }
  }

  lemma {:induction false} DaysBeforePositive(y: int, m: int)
    requires 1 <= m <= 12
    ensures DaysBefore(y, m) >= 0
  {
    if m > 1 {
      DaysBeforePositive(y, m - 1);
    }
  }

  /** The two views of a day agree: counting pages from the epoch and the closed form are inverse to each other. */
  lemma CivilOfNumber(d: Date)
    requires Real(d)
    ensures Civil(DayNumber(d)) == d
  {
    var c := Civil(DayNumber(d));
    NumberOfCivil(DayNumber(d));
    if Earlier(c, d) {
      EarlierIsSmaller(c, d);
    } else if Earlier(d, c) {
      EarlierIsSmaller(d, c);
    }
  }

  // ---------------------------------------------------------------------------
  // Minutes.

  function DayOf(t: int): int { t / 1440 }
  function HourOf(t: int): int { t % 1440 / 60 }
  function MinuteOf(t: int): int { t % 60 }
  function DateOf(t: int): Date { Civil(DayOf(t)) }

  lemma ClockOf(t: int)
    ensures t % 1440 == 60 * HourOf(t) + MinuteOf(t)
  {
    var day, m := t / 1440, t % 1440;
    assert t == (24 * day + m / 60) * 60 + m % 60;
    UniqueRemainder(t, 60, 24 * day + m / 60, m % 60);
  }

  lemma ShiftDays(t: int, k: int)
    ensures DayOf(t + 1440 * k) == DayOf(t) + k && (t + 1440 * k) % 1440 == t % 1440
  {
  }

  /** The epoch was a Thursday; Sunday is 0. */
  function Weekday(t: int): int { (DayOf(t) + 4) % 7 }

  function NextMonth(d: Date): Date {
    if d.month == 12 then Date(d.year + 1, 1, 1) else Date(d.year, d.month + 1, 1)
  }

  /** Midnight starting the first of the month after that of `t`. */
  function MonthAfter(t: int): int {
    1440 * DayNumber(NextMonth(DateOf(t)))
  }

  lemma DaysInMonth(d: Date, k: int)
    requires Real(d) && 0 <= k <= DaysIn(d.year, d.month) - d.day
    ensures Civil(DayNumber(d) + k) == Date(d.year, d.month, d.day + k)
  {
    var e := Date(d.year, d.month, d.day + k);
    assert DayNumber(e) == DayNumber(d) + k;
    CivilOfNumber(e);
  }

  lemma SameMonthDays(d: Date, k: int)
    requires Real(d) && 0 <= k && DayNumber(d) + k < DayNumber(NextMonth(d))
    ensures Civil(DayNumber(d) + k).month == d.month
  {
    var last := Date(d.year, d.month, DaysIn(d.year, d.month));
    assert Tomorrow(last) == NextMonth(d);
    TomorrowIsNext(last);
    DaysInMonth(d, k);
  }

  /** No minute between `t` and the next month lies in another month than `t`. */
  lemma SameMonthUntil(t: int, u: int)
    requires t <= u < MonthAfter(t)
    ensures DateOf(u).month == DateOf(t).month
  {
    NumberOfCivil(DayOf(t));
    OrderedDays(t, u, DayNumber(NextMonth(DateOf(t))));
    SameMonthDays(DateOf(t), DayOf(u) - DayOf(t));
  }

  lemma OrderedDays(t: int, u: int, day: int)
    requires t <= u < 1440 * day
    ensures DayOf(t) <= DayOf(u) < day
  {
  }

  lemma MonthAfterIsLater(t: int)
    ensures t < MonthAfter(t)
  {
    var d := DateOf(t);
    NumberOfCivil(DayOf(t));
    EarlierIsSmaller(d, NextMonth(d));
  }
}
