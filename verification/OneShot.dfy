/**
 internal/cron/loop.go, buildLoopOnceCommand: a delay becomes a cron line, which must fire at the end of the delay.
 */
module OneShot {
  import opened Wrappers
  import opened Numerals
  import opened Calendar
  import opened CronNext
  import opened CronParse
  import opened CronFields

  /** The minute `minutes` after the one that `now` lies in. */
  function Target(now: int, minutes: int): int {
    (now + minutes * MINUTE) / MINUTE
  }

  lemma TargetIsLater(now: int, minutes: int)
    ensures Target(now, minutes) == now / MINUTE + minutes
  {
  }

  /** "minute hour day month *". */
  function OnceLine(target: int): string {
    Line(Itoa(MinuteOf(target)), Itoa(HourOf(target)), Itoa(DateOf(target).day), Itoa(DateOf(target).month), "*")
  }

  ghost predicate Once(e: Expression, target: int) {
    && e.minute == {MinuteOf(target)} && e.hour == {HourOf(target)}
    && e.dom == {DateOf(target).day} && e.month == {DateOf(target).month}
    && AllowsAll(e.dow, 0, 6)
  }

  lemma ClockLineReads(mi: nat, h: nat, d: nat, mo: nat) returns (dow: set<int>)
    requires mi <= 59 && h <= 23 && 1 <= d <= 31 && 1 <= mo <= 12
    ensures var words := [Itoa(mi), Itoa(h), Itoa(d), Itoa(mo), "*"];
      Reads(words, 0, {mi}) && Reads(words, 1, {h}) && Reads(words, 2, {d}) && Reads(words, 3, {mo}) &&
        Reads(words, 4, dow)
    ensures AllowsAll(dow, 0, 6)
  {
    var words := [Itoa(mi), Itoa(h), Itoa(d), Itoa(mo), "*"];
    NumberReads(words, 0, mi);
    NumberReads(words, 1, h);
    NumberReads(words, 2, d);
    NumberReads(words, 3, mo);
    dow := StarReads(words, 4);
  }

  lemma ClockLineParses(mi: nat, h: nat, d: nat, mo: nat) returns (e: Expression)
    requires mi <= 59 && h <= 23 && 1 <= d <= 31 && 1 <= mo <= 12
    ensures Parsed(Line(Itoa(mi), Itoa(h), Itoa(d), Itoa(mo), "*")) == Some(e)
    ensures e.minute == {mi} && e.hour == {h} && e.dom == {d} && e.month == {mo} && AllowsAll(e.dow, 0, 6)
  {
    var dow := ClockLineReads(mi, h, d, mo);
    e := Expression({mi}, {h}, {d}, {mo}, dow);
    NumberIsWord(mi);
    NumberIsWord(h);
    NumberIsWord(d);
    NumberIsWord(mo);
    LineParses(Itoa(mi), Itoa(h), Itoa(d), Itoa(mo), "*", e);
  }

  lemma OnceParses(target: int) returns (e: Expression)
    ensures Parsed(OnceLine(target)) == Some(e) && Once(e, target)
  {
    var d := DateOf(target);
    e := ClockLineParses(MinuteOf(target), HourOf(target), d.day, d.month);
  }

  // ---------------------------------------------------------------------------
  // Anniversaries.

  predicate SameDay(a: Date, b: Date) {
    a.month == b.month && a.day == b.day
  }

  lemma NextYear(y: int, m: int, d: int)
    requires 1 <= m <= 12
    ensures DayNumber(Date(y + 1, m, d)) - DayNumber(Date(y, m, d))
      == 365 + if Leap(if m <= 2 then y else y + 1) then 1 else 0
  {
    LeapsCount(y);
    MonthShift(y, m);
  }

  lemma {:induction false} MonthShift(y: int, m: int)
    requires 1 <= m <= 13
    ensures DaysBefore(y + 1, m) - DaysBefore(y, m) ==
      if m <= 2 then 0 else (if Leap(y + 1) then 1 else 0) - (if Leap(y) then 1 else 0)
  {
    if m > 1 {
      MonthShift(y, m - 1);
    }
  }

  lemma {:induction false} YearsApart(y: int, z: int, m: int, d: int)
    requires y <= z && 1 <= m <= 12
    ensures DayNumber(Date(z, m, d)) - DayNumber(Date(y, m, d)) >= 365 * (z - y)
    decreases z - y
  {
    if y < z {
      NextYear(z - 1, m, d);
      YearsApart(y, z - 1, m, d);
    }
  }

  /** The last earlier year that has this day. */
  function PreviousYear(d: Date): int {
    if !(d.month == 2 && d.day == 29) then d.year - 1
    else if Leap(d.year - 4) then d.year - 4
    else d.year - 8
  }

  lemma PreviousYearIs(d: Date, y: int)
    requires Real(d)
    ensures PreviousYear(d) < d.year && Real(Date(PreviousYear(d), d.month, d.day))
    ensures y < d.year && Real(Date(y, d.month, d.day)) ==> y <= PreviousYear(d)
  {
    if d.month == 2 && d.day == 29 {
      LeapYearsBefore(d.year);
      if y < d.year && Leap(y) {
        LeapYearsApart(d.year, y);
      }
    }
  }

  lemma LeapYearsBefore(y: int)
    requires Leap(y)
    ensures Leap(y - 4) || Leap(y - 8)
  {
    FourBack(y);
    FourBack(y - 4);
    if (y - 4) % 100 == 0 {
      NotAHundred(y - 4);
    }
  }

  lemma FourBack(y: int)
    requires y % 4 == 0
    ensures (y - 4) % 4 == 0
  {
  }

  lemma NotAHundred(y: int)
    requires y % 100 == 0
    ensures (y - 4) % 100 != 0
  {
  }

  lemma FoursApart(y: int, z: int)
    requires y % 4 == 0 && z % 4 == 0 && z < y
    ensures z <= y - 4 && (y - 4) % 4 == 0
  {
  }

  lemma LeapYearsApart(y: int, z: int)
    requires Leap(y) && Leap(z) && z < y
    ensures z <= y - 4 && (!Leap(y - 4) ==> z <= y - 8)
  {
    FoursApart(y, z);
    if z != y - 4 {
      FoursApart(y - 4, z);
    }
  }

  /** Days from the last anniversary of a date to the date. */
  function Gap(d: Date): int
    requires 1 <= d.month <= 12
  {
    DayNumber(d) - DayNumber(Date(PreviousYear(d), d.month, d.day))
  }

  lemma GapIsAYear(d: Date)
    requires Real(d)
    ensures Gap(d) >= 365
  {
    YearsApart(PreviousYear(d), d.year, d.month, d.day);
  }

  lemma EarlierAnniversary(a: Date, d: Date)
    requires Real(a) && Real(d) && SameDay(a, d) && DayNumber(a) < DayNumber(d)
    ensures DayNumber(a) <= DayNumber(d) - Gap(d)
  {
    if a.year > d.year {
      YearsApart(d.year, a.year, d.month, d.day);
    }
    assert a.year == d.year ==> a == d;
    PreviousYearIs(d, a.year);
    YearsApart(a.year, PreviousYear(d), d.month, d.day);
  }

  // ---------------------------------------------------------------------------
  // When the line fires.

  lemma OnceMatches(e: Expression, target: int, u: int)
    requires Once(e, target)
    ensures Matches(e, u) <==> SameDay(DateOf(u), DateOf(target)) && u % 1440 == target % 1440
  {
    SameClock(u, target);
  }

  lemma SameClock(u: int, t: int)
    ensures HourOf(u) == HourOf(t) && MinuteOf(u) == MinuteOf(t) <==> u % 1440 == t % 1440
  {
    ClockOf(u);
    ClockOf(t);
  }

  lemma WholeDaysApart(u: int, t: int)
    requires u % 1440 == t % 1440
    ensures t - u == 1440 * (DayOf(t) - DayOf(u))
  {
  }

  /** Every earlier match lies at least the gap before the target. */
  lemma EarlierMatch(e: Expression, target: int, u: int)
    requires Once(e, target) && Matches(e, u) && u < target
    ensures u <= target - 1440 * Gap(DateOf(target))
  {
    OnceMatches(e, target, u);
    WholeDaysApart(u, target);
    NumberOfCivil(DayOf(u));
    NumberOfCivil(DayOf(target));
    EarlierAnniversary(DateOf(u), DateOf(target));
  }

  lemma LastAnniversary(d: Date, day: int)
    requires Real(d) && DayNumber(d) == day
    ensures SameDay(Civil(day - Gap(d)), d)
  {
    PreviousYearIs(d, d.year);
    CivilOfNumber(Date(PreviousYear(d), d.month, d.day));
  }

  lemma SameDateMatches(e: Expression, target: int, days: int, d: Date)
    requires Once(e, target) && d == DateOf(target) && SameDay(Civil(DayOf(target) - days), d)
    ensures Matches(e, target - 1440 * days)
  {
    ShiftDays(target, -days);
    OnceMatches(e, target, target - 1440 * days);
  }

  lemma LastAnniversaryMatches(e: Expression, target: int, d: Date)
    requires Once(e, target) && d == DateOf(target) && DayNumber(d) == DayOf(target)
    ensures Matches(e, target - 1440 * Gap(d))
  {
    LastAnniversary(d, DayOf(target));
    SameDateMatches(e, target, Gap(d), d);
  }

  lemma TargetMatches(e: Expression, target: int)
    requires Once(e, target)
    ensures Matches(e, target)
  {
    OnceMatches(e, target, target);
  }

  /**
   The printed line, read back and searched from `now`, fires exactly at its target if and only if the delay is no
   longer than the time since the last anniversary of the target's date and the target is within the horizon.
   */
  lemma FiresAtTargetIff(now: int, minutes: int)
    requires minutes >= 1
    ensures var t := Target(now, minutes);
      Parsed(OnceLine(t)).Some? &&
      (NextAfter(Parsed(OnceLine(t)).value, now) == Some(t)
       <==> minutes <= 1440 * Gap(DateOf(t)) && t * MINUTE < now + HORIZON)
  {
    var t := Target(now, minutes);
    TargetIsLater(now, minutes);
    var e := OnceParses(t);
    TargetMatches(e, t);
    NextAfterIsLeast(e, now);
    if minutes <= 1440 * Gap(DateOf(t)) && t * MINUTE < now + HORIZON {
      forall u | Opening(now) <= u < t ensures !Matches(e, u) {
        if Matches(e, u) {
          EarlierMatch(e, t, u);
        }
      }
      OpeningIsNext(now, t);
      OnlyNext(e, now, t);
    } else if minutes > 1440 * Gap(DateOf(t)) {
      NumberOfCivil(DayOf(t));
      LastAnniversaryMatches(e, t, DateOf(t));
      OpeningIsNext(now, t - 1440 * Gap(DateOf(t)));
      GapIsAYear(DateOf(t));
    }
  }

  /** So every delay from one minute to 365 days fires exactly when it should. */
  lemma OneShotFires(now: int, minutes: int)
    requires 1 <= minutes <= 365 * 24 * 60
    ensures var t := Target(now, minutes);
      Parsed(OnceLine(t)).Some? && NextAfter(Parsed(OnceLine(t)).value, now) == Some(t)
  {
    var t := Target(now, minutes);
    TargetIsLater(now, minutes);
    GapIsAYear(DateOf(t));
    FiresAtTargetIff(now, minutes);
  }
}
