/** internal/cron/loop.go: a requested interval becomes the nearest interval a cron line can express, and its line. */
module Cadence {
  import opened Wrappers
  import opened Numerals
  import opened Remainders
  import opened Calendar
  import opened CronNext
  import opened CronParse
  import opened CronFields

  datatype Unit = Seconds | Minutes | Hours | Days

  /** Seconds round up to whole minutes. */
  function IntervalMinutes(value: nat, unit: Unit): nat {
    match unit
    case Seconds => if (value + 59) / 60 < 1 then 1 else (value + 59) / 60
    case Minutes => value
    case Hours => value * 60
    case Days => value * 24 * 60
  }

  const SUBHOURLY: seq<int> := [1, 2, 3, 4, 5, 6, 10, 12, 15, 20, 30, 60]
  const SUBDAILY: seq<int> := [60, 120, 180, 240, 360, 480, 720, 1440]

  function WholeDays(n: nat): seq<int> {
    seq(n, i requires 0 <= i < n => (i + 1) * 1440)
  }

  function Allowed(requested: int): seq<int> {
    if requested < 60 then SUBHOURLY else if requested < 1440 then SUBDAILY else WholeDays(31)
  }

  function Distance(a: int, b: int): nat {
    if a < b then b - a else a - b
  }

  /** The closest of the allowed intervals, and of two equally close the larger. */
  predicate Nearest(requested: int, allowed: seq<int>, best: int) {
    best in allowed &&
    forall c :: c in allowed ==>
      Distance(requested, best) < Distance(requested, c) ||
        (Distance(requested, best) == Distance(requested, c) && c <= best)
  }

  method NearestAllowed(requested: int, allowed: seq<int>) returns (best: int)
    requires allowed != []
    ensures Nearest(requested, allowed, best)
  {
    best := allowed[0];
    var bestDelta := Distance(requested, best);
    for i := 1 to |allowed|
      invariant bestDelta == Distance(requested, best) && Nearest(requested, allowed[..i], best)
    {
      var candidate := allowed[i];
      var delta := Distance(requested, candidate);
      if delta < bestDelta || (delta == bestDelta && candidate > best) {
        best, bestDelta := candidate, delta;
      }
      assert allowed[..i + 1] == allowed[..i] + [candidate];
    }
    assert allowed[..|allowed|] == allowed;
  }

  // ---------------------------------------------------------------------------
  // The line for an effective interval.

  /** On the hour and on the half everyone's jobs run: another minute is chosen. */
  function ScheduleMinute(minute: int): int {
    if minute == 0 then 7 else if minute == 30 then 37 else minute
  }

  function NowHour(now: int): nat { HourOf(now / MINUTE) }
  function NowMinute(now: int): nat { ScheduleMinute(MinuteOf(now / MINUTE)) }

  function HourField(hours: nat, now: int): string
    requires hours > 0
  {
    var start := NowHour(now) % hours;
    if hours == 1 then "*"
    else if start == 0 then "*/" + Itoa(hours)
    else Itoa(start) + "-" + Itoa(23) + "/" + Itoa(hours)
  }

  function CadenceLine(total: nat, now: int): string {
    if total < 60 then Line("*/" + Itoa(total), "*", "*", "*", "*")
    else if total < 1440 then Line(Itoa(NowMinute(now)), HourField(total / 60, now), "*", "*", "*")
    else if total / 1440 <= 1 then Line(Itoa(NowMinute(now)), Itoa(NowHour(now)), "*", "*", "*")
    else Line(Itoa(NowMinute(now)), Itoa(NowHour(now)), "*/" + Itoa(total / 1440), "*", "*")
  }

  method LoopIntervalToCadence(value: nat, unit: Unit, now: int) returns (effective: int, line: string)
    ensures Nearest(IntervalMinutes(value, unit), Allowed(IntervalMinutes(value, unit)), effective)
    ensures effective > 0 && line == CadenceLine(effective, now)
  {
    var requested := IntervalMinutes(value, unit);
    if requested < 60 {
      effective := NearestAllowed(requested, SUBHOURLY);
    } else if requested < 1440 {
      effective := NearestAllowed(requested, SUBDAILY);
    } else {
      var allowed: seq<int> := [];
      for d := 1 to 32
        invariant allowed == WholeDays(d - 1)
      {
        allowed := allowed + [d * 1440];
      }
      effective := NearestAllowed(requested, allowed);
    }
    line := CadenceLine(effective, now);
  }

  // ---------------------------------------------------------------------------
  // Reading the line back.

  ghost predicate AnyDate(e: Expression) {
    AllowsAll(e.dom, 1, 31) && AllowsAll(e.month, 1, 12) && AllowsAll(e.dow, 0, 6)
  }

  lemma AnyDateMatches(e: Expression, t: int)
    requires AnyDate(e)
    ensures Matches(e, t) <==> HourOf(t) in e.hour && MinuteOf(t) in e.minute
  {
    DateInRange(DateOf(t));
  }

  lemma DateInRange(d: Date)
    requires Real(d)
    ensures 1 <= d.day <= 31 && 1 <= d.month <= 12
  {
  }

  lemma AnyDateReads(words: seq<string>) returns (dom: set<int>, month: set<int>, dow: set<int>)
    requires |words| == 5 && words[2] == "*" && words[3] == "*" && words[4] == "*"
    ensures Reads(words, 2, dom) && Reads(words, 3, month) && Reads(words, 4, dow)
    ensures AllowsAll(dom, 1, 31) && AllowsAll(month, 1, 12) && AllowsAll(dow, 0, 6)
  {
    dom := StarReads(words, 2);
    month := StarReads(words, 3);
    dow := StarReads(words, 4);
  }

  // ---------------------------------------------------------------------------
  // Even spacing.

  /** Exactly the minutes with one remainder match: any two neighbours lie `total` apart. */
  ghost predicate Evenly(e: Expression, total: int, phase: int)
    requires total > 0
  {
    0 <= phase < total && forall t :: Matches(e, t) <==> t % total == phase
  }

  lemma ModOfMod(t: int, big: int, n: int)
    requires n > 0 && big > 0 && big % n == 0
    ensures t % big % n == t % n
  {
    var k, q, r := big / n, t / big, t % big;
    assert big == n * k;
    assert t == big * q + r;
    assert big * q == (k * q) * n by { Reassociate(n, k, q); }
    assert r == (r / n) * n + r % n;
    assert t == (k * q + r / n) * n + r % n by { Distribute(k * q, r / n, n); }
    UniqueRemainder(t, n, k * q + r / n, r % n);
  }

  lemma Reassociate(n: int, k: int, q: int)
    ensures (n * k) * q == (k * q) * n
  {
  }

  lemma Distribute(a: int, b: int, n: int)
    ensures (a + b) * n == a * n + b * n
  {
  }

  lemma SubhourlyMatches(e: Expression, total: nat)
    requires 0 < total < 60 && 60 % total == 0
    requires AnyDate(e) && Allows(Some(e.minute), 0, 59, total) && AllowsAll(e.hour, 0, 23)
    ensures Evenly(e, total, 0)
  {
    forall t ensures Matches(e, t) <==> t % total == 0 {
      AnyDateMatches(e, t);
      assert Every(0, 59, total, MinuteOf(t)) <==> t % 60 % total == 0;
      ModOfMod(t, 60, total);
    }
  }

  lemma SubhourlyIsEven(total: nat, now: int) returns (e: Expression)
    requires 0 < total < 60 && 60 % total == 0
    ensures Parsed(CadenceLine(total, now)) == Some(e) && Evenly(e, total, 0)
  {
    var field := "*/" + Itoa(total);
    StarStepIsWord(total);
    var words := [field, "*", "*", "*", "*"];
    var minute := StarStepReads(words, 0, total);
    var hour := StarReads(words, 1);
    e := AnyDateParses(field, "*", minute, hour);
    SubhourlyMatches(e, total);
  }

  lemma StarStepIsWord(n: nat)
    ensures Word("*/" + Itoa(n))
  {
    PrintedNumber(n);
    PrintedJoin("*/", Itoa(n));
  }

  lemma HourFieldIsWord(hours: nat, now: int)
    requires 0 < hours < 24
    ensures Word(HourField(hours, now))
  {
    var start := NowHour(now) % hours;
    StarStepIsWord(hours);
    if start != 0 {
      RangeStepField(start, 23, hours, HOURS);
    }
  }

  /** Where the hour field starts, and the hours it allows. */
  lemma HourFieldReads(words: seq<string>, hours: nat, now: int) returns (values: set<int>)
    requires 0 < hours < 24 && |words| == 5 && words[1] == HourField(hours, now)
    ensures Reads(words, 1, values) && Allows(Some(values), NowHour(now) % hours, 23, hours)
  {
    var start := NowHour(now) % hours;
    if hours == 1 {
      StarField(HOURS);
      values := FieldOf("*", HOURS).value;
    } else if start == 0 {
      values := StarStepReads(words, 1, hours);
    } else {
      values := RangeStepReads(words, 1, start, 23, hours);
    }
  }

  lemma HourInPhase(h: int, start: int, hours: int)
    requires 0 <= start < hours && 0 <= h <= 23
    ensures Every(start, 23, hours, h) <==> h % hours == start
  {
    var q, r := h / hours, h % hours;
    assert h == q * hours + r;
    if r == start {
      assert h - start == q * hours + 0;
      UniqueRemainder(h - start, hours, q, 0);
      if h < start {
        UniqueRemainder(h, hours, 0, h);
      }
    } else if Every(start, 23, hours, h) {
      var p := (h - start) / hours;
      assert h - start == p * hours;
      UniqueRemainder(h, hours, p, start);
    }
  }

  lemma ClockInPhase(t: int, start: int, hours: int, minute: int)
    requires 0 < hours && 24 % hours == 0 && 0 <= start < hours && 0 <= minute < 60
    ensures HourOf(t) % hours == start && MinuteOf(t) == minute <==> t % (60 * hours) == 60 * start + minute
  {
    var h, m := HourOf(t), MinuteOf(t);
    assert t % 1440 == 60 * h + m;
    assert 1440 % (60 * hours) == 0 by { SixtyTimes(hours); }
    ModOfMod(t, 1440, 60 * hours);
    var q, r := h / hours, h % hours;
    assert h == q * hours + r;
    assert 60 * h + m == q * (60 * hours) + (60 * r + m);
    UniqueRemainder(60 * h + m, 60 * hours, q, 60 * r + m);
  }

  lemma SixtyTimes(hours: int)
    requires 0 < hours && 24 % hours == 0
    ensures 1440 % (60 * hours) == 0
  {
    var k := 24 / hours;
    assert 24 == k * hours;
    assert 1440 == k * (60 * hours);
    UniqueRemainder(1440, 60 * hours, k, 0);
  }

  lemma HourlyMatches(e: Expression, minute: nat, start: nat, hours: nat)
    requires minute < 60 && 0 < hours < 24 && 24 % hours == 0 && start < hours
    requires AnyDate(e) && e.minute == {minute} && Allows(Some(e.hour), start, 23, hours)
    ensures Evenly(e, 60 * hours, 60 * start + minute)
  {
    forall t ensures Matches(e, t) <==> t % (60 * hours) == 60 * start + minute {
      AnyDateMatches(e, t);
      HourInPhase(HourOf(t), start, hours);
      ClockInPhase(t, start, hours, minute);
    }
  }

  /** A line with any date. */
  lemma AnyDateParses(minuteField: string, hourField: string, minute: set<int>, hour: set<int>) returns (e: Expression)
    requires Word(minuteField) && Word(hourField)
    requires var words := [minuteField, hourField, "*", "*", "*"]; Reads(words, 0, minute) && Reads(words, 1, hour)
    ensures Parsed(Line(minuteField, hourField, "*", "*", "*")) == Some(e)
    ensures AnyDate(e) && e.minute == minute && e.hour == hour
  {
    var dom, month, dow := AnyDateReads([minuteField, hourField, "*", "*", "*"]);
    e := Expression(minute, hour, dom, month, dow);
    LineParses(minuteField, hourField, "*", "*", "*", e);
  }

  lemma HourlyIsEven(hours: nat, now: int) returns (e: Expression)
    requires 0 < hours < 24 && 24 % hours == 0
    ensures Parsed(CadenceLine(60 * hours, now)) == Some(e)
    ensures Evenly(e, 60 * hours, 60 * (NowHour(now) % hours) + NowMinute(now))
  {
    var field := HourField(hours, now);
    HourFieldIsWord(hours, now);
    var words := [Itoa(NowMinute(now)), field, "*", "*", "*"];
    NumberReads(words, 0, NowMinute(now));
    NumberIsWord(NowMinute(now));
    var hour := HourFieldReads(words, hours, now);
    e := AnyDateParses(Itoa(NowMinute(now)), field, {NowMinute(now)}, hour);
    HourlyMatches(e, NowMinute(now), NowHour(now) % hours, hours);
    assert 60 * hours / 60 == hours;
  }

  lemma ClockIsEven(e: Expression, minute: nat, hour: nat)
    requires minute < 60 && hour < 24 && AnyDate(e) && e.minute == {minute} && e.hour == {hour}
    ensures Evenly(e, 1440, 60 * hour + minute)
  {
    forall t ensures Matches(e, t) <==> t % 1440 == 60 * hour + minute {
      AnyDateMatches(e, t);
      ClockOf(t);
    }
  }

  lemma ClockLineIsEven(minute: nat, hour: nat) returns (e: Expression)
    requires minute < 60 && hour < 24
    ensures Parsed(Line(Itoa(minute), Itoa(hour), "*", "*", "*")) == Some(e) && Evenly(e, 1440, 60 * hour + minute)
  {
    var words := [Itoa(minute), Itoa(hour), "*", "*", "*"];
    NumberReads(words, 0, minute);
    NumberReads(words, 1, hour);
    NumberIsWord(minute);
    NumberIsWord(hour);
    e := AnyDateParses(Itoa(minute), Itoa(hour), {minute}, {hour});
    ClockIsEven(e, minute, hour);
  }

  lemma DailyIsEven(now: int) returns (e: Expression)
    ensures Parsed(CadenceLine(1440, now)) == Some(e) && Evenly(e, 1440, 60 * NowHour(now) + NowMinute(now))
  {
    e := ClockLineIsEven(NowMinute(now), NowHour(now));
  }

  predicate EvenInterval(total: int) {
    || (0 < total < 60 && 60 % total == 0)
    || (60 <= total < 1440 && total % 60 == 0 && 24 % (total / 60) == 0)
    || total == 1440
  }

  lemma EvenIntervalIsEven(total: int, now: int) returns (e: Expression, phase: int)
    requires EvenInterval(total)
    ensures total > 0 && Parsed(CadenceLine(total, now)) == Some(e) && Evenly(e, total, phase)
  {
    if total < 60 {
      e := SubhourlyIsEven(total, now);
      phase := 0;
    } else if total < 1440 {
      var hours := total / 60;
      assert total == 60 * hours;
      e := HourlyIsEven(hours, now);
      phase := 60 * (NowHour(now) % hours) + NowMinute(now);
    } else {
      e := DailyIsEven(now);
      phase := 60 * NowHour(now) + NowMinute(now);
    }
  }

  lemma AllowedIsEven(requested: int, total: int)
    requires total in Allowed(requested) && total <= 1440
    ensures EvenInterval(total)
  {
    if requested >= 1440 {
      var i :| 0 <= i < 31 && WholeDays(31)[i] == total;
    }
  }

  /** Every effective interval of at most a day gives a line that parses and matches exactly every so many minutes. */
  lemma CadenceIsEven(requested: nat, total: int, now: int) returns (e: Expression, phase: int)
    requires Nearest(requested, Allowed(requested), total) && total <= 1440
    ensures total > 0 && Parsed(CadenceLine(total, now)) == Some(e) && Evenly(e, total, phase)
  {
    AllowedIsEven(requested, total);
    e, phase := EvenIntervalIsEven(total, now);
  }

  /** So after each fire the next comes exactly one interval later, over hours, midnights and months. */
  lemma FiresEvenly(e: Expression, total: int, phase: int, t: int)
    requires 0 < total <= 1440 && Evenly(e, total, phase) && Matches(e, t)
    ensures NextAfter(e, t * MINUTE) == Some(t + total)
  {
    AddStep(t, total);
    assert Matches(e, t + total);
    forall u | Opening(t * MINUTE) <= u < t + total ensures !Matches(e, u) {
      assert Opening(t * MINUTE) == t + 1;
      NoneBetween(t, u, total);
    }
    OnlyNext(e, t * MINUTE, t + total);
  }

  lemma NoneBetween(t: int, u: int, total: int)
    requires total > 0 && t < u < t + total
    ensures u % total != t % total
  {
    var a, b := u / total, t / total;
    if u % total == t % total {
      assert u == a * total + u % total && t == b * total + t % total;
      assert (a - b) * total == u - t;
      OnlyZeroBetween(a - b, total, u - t);
    }
  }

  // ---------------------------------------------------------------------------
  // Intervals of several days restart with every month.

  ghost predicate ByDays(e: Expression, days: nat, clock: int)
    requires days > 0
  {
    forall t :: Matches(e, t) <==> (DateOf(t).day - 1) % days == 0 && t % 1440 == clock
  }

  lemma DayLineReads(minute: nat, hour: nat, days: nat) returns (e: Expression)
    requires minute < 60 && hour < 24 && 2 <= days <= 31
    ensures Parsed(Line(Itoa(minute), Itoa(hour), "*/" + Itoa(days), "*", "*")) == Some(e)
    ensures e.minute == {minute} && e.hour == {hour} && Allows(Some(e.dom), 1, 31, days)
    ensures AllowsAll(e.month, 1, 12) && AllowsAll(e.dow, 0, 6)
  {
    var words := [Itoa(minute), Itoa(hour), "*/" + Itoa(days), "*", "*"];
    NumberReads(words, 0, minute);
    NumberReads(words, 1, hour);
    var dom := StarStepReads(words, 2, days);
    var month := StarReads(words, 3);
    var dow := StarReads(words, 4);
    NumberIsWord(minute);
    NumberIsWord(hour);
    StarStepIsWord(days);
    e := Expression({minute}, {hour}, dom, month, dow);
    LineParses(Itoa(minute), Itoa(hour), "*/" + Itoa(days), "*", "*", e);
  }

  lemma FreeMonthMatches(e: Expression, t: int)
    requires AllowsAll(e.month, 1, 12) && AllowsAll(e.dow, 0, 6)
    ensures Matches(e, t) <==> DateOf(t).day in e.dom && HourOf(t) in e.hour && MinuteOf(t) in e.minute
    ensures 1 <= DateOf(t).day <= 31
  {
    DateInRange(DateOf(t));
  }

  lemma ClockIs(t: int, minute: nat, hour: nat)
    requires minute < 60 && hour < 24
    ensures HourOf(t) in {hour} && MinuteOf(t) in {minute} <==> t % 1440 == 60 * hour + minute
  {
    ClockOf(t);
  }

  lemma DayLineMatches(e: Expression, minute: nat, hour: nat, days: nat)
    requires minute < 60 && hour < 24 && 2 <= days <= 31
    requires e.minute == {minute} && e.hour == {hour} && Allows(Some(e.dom), 1, 31, days)
    requires AllowsAll(e.month, 1, 12) && AllowsAll(e.dow, 0, 6)
    ensures ByDays(e, days, 60 * hour + minute)
  {
    forall t ensures Matches(e, t) <==> (DateOf(t).day - 1) % days == 0 && t % 1440 == 60 * hour + minute {
      FreeMonthMatches(e, t);
      ClockIs(t, minute, hour);
      var day := DateOf(t).day;
      assert Every(1, 31, days, day) <==> (day - 1) % days == 0;
    }
  }

  lemma SeveralDaysMatch(days: nat, now: int) returns (e: Expression)
    requires 2 <= days <= 31
    ensures Parsed(CadenceLine(1440 * days, now)) == Some(e)
    ensures ByDays(e, days, 60 * NowHour(now) + NowMinute(now))
  {
    var minute, hour := NowMinute(now), NowHour(now);
    e := DayLineReads(minute, hour, days);
    DayLineMatches(e, minute, hour, days);
    SeveralDaysLine(days, now);
  }

  lemma SeveralDaysLine(days: nat, now: int)
    requires 2 <= days <= 31
    ensures CadenceLine(1440 * days, now) == Line(Itoa(NowMinute(now)), Itoa(NowHour(now)), "*/" + Itoa(days), "*", "*")
  {
    assert 1440 * days / 1440 == days;
  }

  /** Days until the next multiple of the interval in the month, or until the next month. */
  function DaysToNext(d: Date, days: nat): int {
    if d.day + days <= DaysIn(d.year, d.month) then days else DaysIn(d.year, d.month) - d.day + 1
  }

  lemma DaysLater(t: int, k: nat)
    ensures var d := DateOf(t);
      && DateOf(t + 1440 * k) == Civil(DayNumber(d) + k)
      && (t + 1440 * k) % 1440 == t % 1440
  {
    NumberOfCivil(DayOf(t));
    ShiftDays(t, k);
  }

  lemma DayAfter(d: Date, k: nat)
    requires Real(d) && k <= DaysIn(d.year, d.month) - d.day + 1
    ensures Civil(DayNumber(d) + k).day == if d.day + k <= DaysIn(d.year, d.month) then d.day + k else 1
  {
    if d.day + k <= DaysIn(d.year, d.month) {
      DaysInMonth(d, k);
    } else {
      DaysInMonth(d, k - 1);
      FirstFollowsLast(DayNumber(d) + k - 1);
    }
  }

  lemma FirstFollowsLast(n: int)
    requires Civil(n).day == DaysIn(Civil(n).year, Civil(n).month)
    ensures Civil(n + 1).day == 1
  {
    CivilStep(n);
  }

  lemma NoMultipleBetween(x: int, k: int, days: int)
    requires days > 0 && x % days == 0 && 0 < k < days
    ensures (x + k) % days != 0
  {
    UniqueRemainder(x + k, days, x / days, k);
  }

  /** The day of the month `k` days after minute `t`, up to the next first. */
  lemma LaterDay(t: int, d: Date, k: nat)
    requires d == DateOf(t) && k <= DaysIn(d.year, d.month) - d.day + 1
    ensures DateOf(t + 1440 * k).day == if d.day + k <= DaysIn(d.year, d.month) then d.day + k else 1
  {
    DaysLater(t, k);
    DayAfter(d, k);
  }

  lemma NoFireBetween(e: Expression, days: nat, clock: int, t: int, d: Date, k: nat)
    requires 0 < days && ByDays(e, days, clock) && d == DateOf(t) && Matches(e, t)
    requires 0 < k < DaysToNext(d, days)
    ensures !Matches(e, t + 1440 * k)
  {
    LaterDay(t, d, k);
    NoMultipleBetween(d.day - 1, k, days);
  }

  lemma StaysInPhase(day: int, days: nat)
    requires days > 0 && (day - 1) % days == 0
    ensures (day + days - 1) % days == 0 && (1 - 1) % days == 0
  {
    AddStep(day - 1, days);
    SmallRemainder(0, days);
  }

  lemma SomeDaysToNext(d: Date, days: nat)
    requires Real(d) && days > 0
    ensures 0 < DaysToNext(d, days) <= DaysIn(d.year, d.month) - d.day + 1
  {
  }

  lemma NextDayInPhase(t: int, d: Date, days: nat)
    requires days > 0 && d == DateOf(t) && (d.day - 1) % days == 0
    ensures DaysToNext(d, days) > 0 && (DateOf(t + 1440 * DaysToNext(d, days)).day - 1) % days == 0
  {
    SomeDaysToNext(d, days);
    LaterDay(t, d, DaysToNext(d, days));
    StaysInPhase(d.day, days);
  }

  lemma FiresNext(e: Expression, days: nat, clock: int, t: int, d: Date)
    requires 0 < days && ByDays(e, days, clock) && d == DateOf(t) && Matches(e, t)
    ensures Matches(e, t + 1440 * DaysToNext(d, days)) && 0 < DaysToNext(d, days)
  {
    NextDayInPhase(t, d, days);
    ShiftDays(t, DaysToNext(d, days));
  }

  lemma SameClockDays(t: int, u: int)
    requires t % 1440 == u % 1440 && t < u
    ensures u == t + 1440 * ((u - t) / 1440) && (u - t) / 1440 > 0
  {
  }

  lemma NoneUntilNext(e: Expression, days: nat, clock: int, t: int, d: Date, u: int)
    requires 0 < days && ByDays(e, days, clock) && d == DateOf(t) && Matches(e, t)
    requires t < u < t + 1440 * DaysToNext(d, days)
    ensures !Matches(e, u)
  {
    if Matches(e, u) {
      SameClockDays(t, u);
      NoFireBetween(e, days, clock, t, d, (u - t) / 1440);
    }
  }

  /**
   After each fire, the next comes the interval later while the month lasts, else on the first of the next month: the
   interval is kept exactly when it does not run past that first.
   */
  lemma FiresByTheMonth(e: Expression, days: nat, clock: int, t: int, d: Date)
    requires 0 < days <= 31 && ByDays(e, days, clock) && Matches(e, t) && d == DateOf(t)
    ensures NextAfter(e, t * MINUTE) == Some(t + 1440 * DaysToNext(d, days))
    ensures NextAfter(e, t * MINUTE) == Some(t + 1440 * days) <==> d.day + days <= DaysIn(d.year, d.month) + 1
  {
    var k := DaysToNext(d, days);
    FiresNext(e, days, clock, t, d);
    forall u | Opening(t * MINUTE) <= u < t + 1440 * k ensures !Matches(e, u) {
      NoneUntilNext(e, days, clock, t, d, u);
    }
    OnlyNext(e, t * MINUTE, t + 1440 * k);
  }
}
