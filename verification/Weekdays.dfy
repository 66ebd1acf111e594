/**
 internal/cron/cron.go, nextAfter: what a match means on the calendar. The day of the week is that of a formula in year,
 month and day, and a line that names one fires on the dates the formula gives, week after week.
 */
module Weekdays {
  import opened Wrappers
  import opened Remainders
  import opened Numerals
  import opened Calendar
  import opened CronNext
  import opened CronParse
  import opened CronFields

  /** Zeller's congruence, with Sunday as 0: January and February count as months 13 and 14 of the year before. */
  function Zeller(d: Date): int {
    var y, m := if d.month <= 2 then d.year - 1 else d.year, if d.month <= 2 then d.month + 12 else d.month;
    (d.day + 13 * (m + 1) / 5 + y + y / 4 - y / 100 + y / 400 + 6) % 7
  }

  lemma DaysBeforeIs(y: int, m: int)
    requires 1 <= m <= 12
    ensures m == 1 ==> DaysBefore(y, m) == 0
    ensures m == 2 ==> DaysBefore(y, m) == 31
    ensures m >= 3 ==> DaysBefore(y, m) == 28 * m - 35 + 13 * (m + 1) / 5 + if Leap(y) then 1 else 0
  {
    var leap := if Leap(y) then 1 else 0;
    assert DaysBefore(y, 2) == 31;
    assert DaysBefore(y, 3) == 59 + leap;
    if m >= 5 {
      assert DaysBefore(y, 5) == 120 + leap;
    }
    if m >= 7 {
      assert DaysBefore(y, 7) == 181 + leap;
    }
    if m >= 9 {
      assert DaysBefore(y, 9) == 243 + leap;
    }
    if m >= 11 {
      assert DaysBefore(y, 11) == 304 + leap;
    }
  }

  /** The day number and the formula differ by whole weeks. */
  lemma WeeksApart(d: Date) returns (weeks: int)
    requires Real(d)
    ensures var y, m := if d.month <= 2 then d.year - 1 else d.year, if d.month <= 2 then d.month + 12 else d.month;
      DayNumber(d) + 4 == 7 * weeks + (d.day + 13 * (m + 1) / 5 + y + y / 4 - y / 100 + y / 400 + 6)
  {
    DaysBeforeIs(d.year, d.month);
    LeapsCount(d.year);
    assert LeapsBefore(1970) == 477;
    if d.month == 1 {
      weeks := 52 * d.year - 102795;
    } else if d.month == 2 {
      weeks := 52 * d.year - 102791;
    } else {
      weeks := 52 * d.year + 4 * d.month - 102795;
    }
  }

  lemma SameRemainder(a: int, weeks: int, b: int)
    requires a == 7 * weeks + b
    ensures a % 7 == b % 7
  {
    UniqueRemainder(a, 7, weeks + b / 7, b % 7);
  }

  /** The weekday the search tests is that of the date, by the formula. */
  lemma WeekdayIs(t: int)
    ensures Weekday(t) == Zeller(DateOf(t))
  {
    NumberOfCivil(DayOf(t));
    WeekdayOfDate(DateOf(t));
  }

  lemma WeekdayOfDate(d: Date)
    requires Real(d)
    ensures (DayNumber(d) + 4) % 7 == Zeller(d)
  {
    var weeks := WeeksApart(d);
    var y, m := if d.month <= 2 then d.year - 1 else d.year, if d.month <= 2 then d.month + 12 else d.month;
    SameRemainder(DayNumber(d) + 4, weeks, d.day + 13 * (m + 1) / 5 + y + y / 4 - y / 100 + y / 400 + 6);
  }

  /** The next day is the next day of the week, also across months and years. */
  lemma WeekGoesRound(d: Date)
    requires Real(d)
    ensures Zeller(Tomorrow(d)) == (Zeller(d) + 1) % 7
  {
    WeekdayOfDate(d);
    WeekdayOfDate(Tomorrow(d));
    TomorrowIsNext(d);
    SameRemainder(DayNumber(d) + 5, (DayNumber(d) + 4) / 7, Zeller(d) + 1);
  }

  // ---------------------------------------------------------------------------
  // What a match is, by date and clock.

  /** The minute of a date and a time of day. */
  function At(d: Date, h: int, mi: int): int
    requires Real(d)
  {
    1440 * DayNumber(d) + 60 * h + mi
  }

  lemma AtIs(d: Date, h: int, mi: int)
    requires Real(d) && 0 <= h < 24 && 0 <= mi < 60
    ensures var t := At(d, h, mi); DateOf(t) == d && HourOf(t) == h && MinuteOf(t) == mi
  {
    var t := At(d, h, mi);
    CivilOfNumber(d);
    UniqueRemainder(t, 1440, DayNumber(d), 60 * h + mi);
    UniqueRemainder(60 * h + mi, 60, h, mi);
    UniqueRemainder(t, 60, 24 * DayNumber(d) + h, mi);
  }

  /** Every minute is one of some date at some time of day. */
  lemma EveryMinute(t: int) returns (d: Date, h: int, mi: int)
    ensures Real(d) && 0 <= h < 24 && 0 <= mi < 60 && t == At(d, h, mi)
  {
    d, h, mi := DateOf(t), HourOf(t), MinuteOf(t);
    NumberOfCivil(DayOf(t));
    ClockOf(t);
  }

  /** A line matches a time on a date exactly when its five fields allow that time, date and day of the week. */
  lemma MatchesDate(e: Expression, d: Date, h: int, mi: int)
    requires Real(d) && 0 <= h < 24 && 0 <= mi < 60
    ensures Matches(e, At(d, h, mi)) <==>
      mi in e.minute && h in e.hour && d.day in e.dom && d.month in e.month && Zeller(d) in e.dow
  {
    AtIs(d, h, mi);
    WeekdayIs(At(d, h, mi));
  }

  // ---------------------------------------------------------------------------
  // "minute hour * * weekday".

  ghost predicate OnWeekday(e: Expression, mi: int, h: int, w: int) {
    && e.minute == {mi} && e.hour == {h} && e.dow == {w}
    && AllowsAll(e.dom, 1, 31) && AllowsAll(e.month, 1, 12)
  }

  lemma WeeklyLineReads(mi: nat, h: nat, w: nat) returns (dom: set<int>, month: set<int>)
    requires mi <= 59 && h <= 23 && w <= 6
    ensures var words := [Itoa(mi), Itoa(h), "*", "*", Itoa(w)];
      && Reads(words, 0, {mi}) && Reads(words, 1, {h}) && Reads(words, 2, dom) && Reads(words, 3, month)
      && Reads(words, 4, {w})
    ensures AllowsAll(dom, 1, 31) && AllowsAll(month, 1, 12)
  {
    var words := [Itoa(mi), Itoa(h), "*", "*", Itoa(w)];
    NumberReads(words, 0, mi);
    NumberReads(words, 1, h);
    dom := StarReads(words, 2);
    month := StarReads(words, 3);
    NumberReads(words, 4, w);
  }

  lemma WeeklyLineParses(mi: nat, h: nat, w: nat) returns (e: Expression)
    requires mi <= 59 && h <= 23 && w <= 6
    ensures Parsed(Line(Itoa(mi), Itoa(h), "*", "*", Itoa(w))) == Some(e) && OnWeekday(e, mi, h, w)
  {
    var dom, month := WeeklyLineReads(mi, h, w);
    e := Expression({mi}, {h}, dom, month, {w});
    NumberIsWord(mi);
    NumberIsWord(h);
    NumberIsWord(w);
    LineParses(Itoa(mi), Itoa(h), "*", "*", Itoa(w), e);
  }

  lemma SameTime(d: Date, h: int, mi: int, hu: int, mu: int)
    requires Real(d) && 0 <= h < 24 && 0 <= mi < 60 && 0 <= hu < 24 && 0 <= mu < 60
    ensures At(d, h, mi) == At(d, hu, mu) <==> h == hu && mi == mu
  {
  }

  lemma DateMatches(e: Expression, mi: int, h: int, w: int, d: Date, hu: int, mu: int)
    requires OnWeekday(e, mi, h, w) && Real(d) && 0 <= hu < 24 && 0 <= mu < 60
    ensures Matches(e, At(d, hu, mu)) <==> hu == h && mu == mi && Zeller(d) == w
  {
    MatchesDate(e, d, hu, mu);
    RealDate(d);
  }

  lemma OnWeekdayMatches(e: Expression, mi: int, h: int, w: int, u: int)
    requires OnWeekday(e, mi, h, w) && 0 <= h < 24 && 0 <= mi < 60
    ensures Matches(e, u) <==> u == At(DateOf(u), h, mi) && Zeller(DateOf(u)) == w
  {
    var d, hu, mu := EveryMinute(u);
    AtIs(d, hu, mu);
    DateMatches(e, mi, h, w, d, hu, mu);
    SameTime(d, h, mi, hu, mu);
  }

  lemma RealDate(d: Date)
    requires Real(d)
    ensures 1 <= d.month <= 12 && 1 <= d.day <= 31
  {
  }

  /** Among any seven days in a row there is one of each day of the week. */
  lemma OneInSeven(day: int, w: int) returns (k: nat)
    requires 0 <= w <= 6
    ensures k < 7 && (day + k + 4) % 7 == w
  {
    var r := (day + 4) % 7;
    k := if r <= w then w - r else w - r + 7;
    UniqueRemainder(day + k + 4, 7, (day + 4) / 7 + if r <= w then 0 else 1, w);
  }

  lemma DaysOfWeek(a: int, b: int)
    requires a < b < a + 7
    ensures (a + 4) % 7 != (b + 4) % 7
  {
    if (a + 4) % 7 == (b + 4) % 7 {
      OnlyZeroBetween((b + 4) / 7 - (a + 4) / 7, 7, b - a);
    }
  }

  lemma DayIs(n: int, h: int, mi: int)
    ensures At(Civil(n), h, mi) == 1440 * n + 60 * h + mi && Zeller(Civil(n)) == (n + 4) % 7
  {
    NumberOfCivil(n);
    WeekdayOfDate(Civil(n));
  }

  /** The line fires at its time on day `n` exactly when that day has the line's day of the week. */
  lemma FiresOnDay(e: Expression, mi: int, h: int, w: int, n: int)
    requires OnWeekday(e, mi, h, w) && 0 <= h < 24 && 0 <= mi < 60
    ensures Matches(e, 1440 * n + 60 * h + mi) <==> (n + 4) % 7 == w
  {
    DayIs(n, h, mi);
    DateMatches(e, mi, h, w, Civil(n), h, mi);
  }

  /** A matching minute is at the line's time on its day. */
  lemma MatchIsAt(e: Expression, mi: int, h: int, w: int, u: int)
    requires OnWeekday(e, mi, h, w) && 0 <= h < 24 && 0 <= mi < 60 && Matches(e, u)
    ensures u == 1440 * DayOf(u) + 60 * h + mi && (DayOf(u) + 4) % 7 == w
  {
    OnWeekdayMatches(e, mi, h, w, u);
    NumberOfCivil(DayOf(u));
    FiresOnDay(e, mi, h, w, DayOf(u));
  }

  lemma WeekIsInHorizon(after: int, n: int, clock: int)
    requires 0 <= clock < 1440 && (1440 * n + clock) * MINUTE <= after + 7 * 1440 * MINUTE
    ensures (1440 * n + clock) * MINUTE < after + HORIZON
  {
  }

  /** The first day on which the line's time lies after an instant. */
  lemma FirstDayAfter(after: int, clock: int) returns (n: int)
    requires 0 <= clock < 1440
    ensures (1440 * (n - 1) + clock) * MINUTE <= after < (1440 * n + clock) * MINUTE
  {
    var m := Opening(after) - clock;
    n := (m + 1439) / 1440;
    OpeningIsNext(after, 1440 * n + clock);
    OpeningIsNext(after, 1440 * (n - 1) + clock);
  }

  /** The next fire after any instant comes within the week, on a day of the line's day of the week. */
  lemma NextOnWeekday(e: Expression, mi: int, h: int, w: int, after: int) returns (n: int)
    requires OnWeekday(e, mi, h, w) && 0 <= h < 24 && 0 <= mi < 60 && 0 <= w <= 6
    ensures NextAfter(e, after) == Some(1440 * n + 60 * h + mi) && (n + 4) % 7 == w
    ensures (1440 * (n - 7) + 60 * h + mi) * MINUTE <= after < (1440 * n + 60 * h + mi) * MINUTE
  {
    var first := FirstDayAfter(after, 60 * h + mi);
    var k := OneInSeven(first, w);
    n := first + k;
    var t := 1440 * n + 60 * h + mi;
    FiresOnDay(e, mi, h, w, n);
    forall u | Opening(after) <= u < t ensures !Matches(e, u) {
      if Matches(e, u) {
        MatchIsAt(e, mi, h, w, u);
        OpeningIsNext(after, u);
        DaysOfWeek(DayOf(u), n);
      }
    }
    OnlyNext(e, after, t);
  }

  /** The dates with a day of the week that come with the line's time after an instant. */
  predicate Ahead(d: Date, h: int, mi: int, w: int, after: int) {
    Real(d) && Zeller(d) == w && after < At(d, h, mi) * MINUTE
  }

  lemma FirstOnWeekday(e: Expression, mi: int, h: int, w: int, after: int) returns (d: Date)
    requires OnWeekday(e, mi, h, w) && 0 <= h < 24 && 0 <= mi < 60 && 0 <= w <= 6
    ensures Ahead(d, h, mi, w, after) && NextAfter(e, after) == Some(At(d, h, mi))
    ensures forall c :: Ahead(c, h, mi, w, after) ==> c == d || Earlier(d, c)
  {
    var n := NextOnWeekday(e, mi, h, w, after);
    d := Civil(n);
    NumberOfCivil(n);
    WeekdayOfDate(d);
    forall c | Ahead(c, h, mi, w, after) ensures c == d || Earlier(d, c) {
      NotBefore(c, d, h, mi, w, after, n);
    }
  }

  lemma AgainInAWeek(e: Expression, mi: int, h: int, w: int, n: int)
    requires OnWeekday(e, mi, h, w) && 0 <= h < 24 && 0 <= mi < 60 && 0 <= w <= 6 && (n + 4) % 7 == w
    ensures NextAfter(e, (1440 * n + 60 * h + mi) * MINUTE) == Some(1440 * n + 60 * h + mi + 7 * 1440)
  {
    var next := NextOnWeekday(e, mi, h, w, (1440 * n + 60 * h + mi) * MINUTE);
    if next != n + 7 {
      DaysOfWeek(n, next);
    }
  }

  /** The next fire is on this date, the first that is ahead, and the one after it seven days later. */
  ghost predicate FiresFirst(e: Expression, mi: int, h: int, w: int, after: int, d: Date) {
    && Ahead(d, h, mi, w, after) && NextAfter(e, after) == Some(At(d, h, mi))
    && (forall c :: Ahead(c, h, mi, w, after) ==> c == d || Earlier(d, c))
    && NextAfter(e, At(d, h, mi) * MINUTE) == Some(At(d, h, mi) + 7 * 1440)
  }

  lemma WeekByWeek(e: Expression, mi: int, h: int, w: int, after: int) returns (d: Date)
    requires OnWeekday(e, mi, h, w) && 0 <= h < 24 && 0 <= mi < 60 && 0 <= w <= 6
    ensures FiresFirst(e, mi, h, w, after, d)
  {
    d := FirstOnWeekday(e, mi, h, w, after);
    WeekdayOfDate(d);
    AgainInAWeek(e, mi, h, w, DayNumber(d));
  }

  /**
   A line "minute hour * * weekday" fires next on the first date of that day of the week whose time lies after the
   instant, and from then on every seven days.
   */
  lemma FiresWeekly(mi: nat, h: nat, w: nat, after: int) returns (e: Expression, d: Date)
    requires mi <= 59 && h <= 23 && w <= 6
    ensures Parsed(Line(Itoa(mi), Itoa(h), "*", "*", Itoa(w))) == Some(e) && FiresFirst(e, mi, h, w, after, d)
  {
    e := WeeklyLineParses(mi, h, w);
    d := WeekByWeek(e, mi, h, w, after);
  }

  lemma NotBefore(c: Date, d: Date, h: int, mi: int, w: int, after: int, n: int)
    requires Ahead(c, h, mi, w, after) && Real(d) && DayNumber(d) == n && (n + 4) % 7 == w
    requires (1440 * (n - 7) + 60 * h + mi) * MINUTE <= after
    ensures c == d || Earlier(d, c)
  {
    if Earlier(c, d) {
      EarlierIsSmaller(c, d);
      WeekdayOfDate(c);
      DaysOfWeek(DayNumber(c), n);
    }
  }
}
