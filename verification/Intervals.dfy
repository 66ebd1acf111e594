/**
 internal/cron/loop.go: what a requested interval means in time, which intervals are kept as they are, and when the line
 that is built for one fires first.
 */
module Intervals {
  import opened Wrappers
  import opened Numerals
  import opened Remainders
  import opened Calendar
  import opened CronNext
  import opened CronParse
  import opened CronFields
  import opened Cadence

  const SECOND: int := 1_000_000_000

  /** The unit in nanoseconds. */
  function Length(unit: Unit): int {
    match unit
    case Seconds => SECOND
    case Minutes => 60 * SECOND
    case Hours => 3600 * SECOND
    case Days => 86400 * SECOND
  }

  /** An interval counts the least number of whole minutes that last as long as what was asked for. */
  lemma IntervalIsDuration(value: nat, unit: Unit)
    requires value > 0
    ensures var n := IntervalMinutes(value, unit);
      n >= 1 && (n - 1) * MINUTE < value * Length(unit) <= n * MINUTE
  {
    if unit.Seconds? {
      var n := (value + 59) / 60;
      assert 60 * n <= value + 59 < 60 * n + 60;
    }
  }

  lemma MinutesOfHour(n: int)
    ensures n in SUBHOURLY <==> 1 <= n <= 60 && 60 % n == 0
  {
    if 1 <= n <= 60 {
      assert n in SUBHOURLY <==> 60 % n == 0;
    } else {
      assert forall i :: 0 <= i < |SUBHOURLY| ==> 1 <= SUBHOURLY[i] <= 60;
    }
  }

  lemma HoursOfDay(h: int)
    ensures 60 * h in SUBDAILY <==> 1 <= h <= 24 && 24 % h == 0
  {
    if 1 <= h <= 24 {
      assert 60 * h in SUBDAILY <==> 24 % h == 0;
    } else {
      assert forall i :: 0 <= i < |SUBDAILY| ==> 60 <= SUBDAILY[i] <= 1440;
    }
  }

  /** The intervals a line can keep: minutes that divide the hour, hours that divide the day, up to 31 days. */
  predicate Keepable(n: int) {
    || (1 <= n < 60 && 60 % n == 0)
    || (60 <= n < 1440 && n % 60 == 0 && 24 % (n / 60) == 0)
    || (1440 <= n <= 31 * 1440 && n % 1440 == 0)
  }

  lemma KeepableIsAllowed(n: int)
    requires n >= 1
    ensures n in Allowed(n) <==> Keepable(n)
  {
    if n < 60 {
      MinutesOfHour(n);
    } else if n < 1440 {
      HoursOfDay(n / 60);
      if n % 60 == 0 {
        assert n == 60 * (n / 60);
      } else {
        assert forall i :: 0 <= i < |SUBDAILY| ==> SUBDAILY[i] % 60 == 0;
      }
    } else {
      DaysAllowed(n);
    }
  }

  lemma DaysAllowed(n: int)
    requires n >= 1440
    ensures n in WholeDays(31) <==> n <= 31 * 1440 && n % 1440 == 0
  {
    if n <= 31 * 1440 && n % 1440 == 0 {
      assert WholeDays(31)[n / 1440 - 1] == n;
    }
  }

  /** An interval is effective as requested exactly when it is one of these; else it is rounded. */
  lemma KeptIff(requested: int, effective: int)
    requires requested >= 1 && Nearest(requested, Allowed(requested), effective)
    ensures effective == requested <==> Keepable(requested)
  {
    KeepableIsAllowed(requested);
  }

  /** The schedule keeps off the full and half hours. */
  lemma OffTheHour(now: int)
    ensures 0 <= NowMinute(now) < 60 && NowMinute(now) != 0 && NowMinute(now) != 30
    ensures var m := MinuteOf(now / MINUTE); m != 0 && m != 30 ==> NowMinute(now) == m
  {
  }

  lemma HourPhase(t: int, hours: int)
    requires 0 < hours && 24 % hours == 0
    ensures t % (60 * hours) == 60 * (HourOf(t) % hours) + MinuteOf(t)
  {
    ClockInPhase(t, HourOf(t) % hours, hours, MinuteOf(t));
  }

  lemma HourlyFirstFire(hours: nat, now: int) returns (e: Expression)
    requires 0 < hours < 24 && 24 % hours == 0 && MinuteOf(now / MINUTE) != 0 && MinuteOf(now / MINUTE) != 30
    ensures Parsed(CadenceLine(60 * hours, now)) == Some(e) && Matches(e, now / MINUTE)
    ensures exists phase :: Evenly(e, 60 * hours, phase)
  {
    OffTheHour(now);
    e := HourlyIsEven(hours, now);
    HourPhase(now / MINUTE, hours);
  }

  lemma DailyFirstFire(now: int) returns (e: Expression)
    requires MinuteOf(now / MINUTE) != 0 && MinuteOf(now / MINUTE) != 30
    ensures Parsed(CadenceLine(1440, now)) == Some(e) && Matches(e, now / MINUTE)
    ensures exists phase :: Evenly(e, 1440, phase)
  {
    OffTheHour(now);
    e := DailyIsEven(now);
    ClockOf(now / MINUTE);
  }

  lemma StartsInPhase(effective: int, now: int) returns (e: Expression, phase: int)
    requires 60 <= effective <= 1440 && Keepable(effective)
    requires MinuteOf(now / MINUTE) != 0 && MinuteOf(now / MINUTE) != 30
    ensures Parsed(CadenceLine(effective, now)) == Some(e) && Matches(e, now / MINUTE) && Evenly(e, effective, phase)
  {
    if effective < 1440 {
      assert 60 * (effective / 60) == effective;
      e := HourlyFirstFire(effective / 60, now);
    } else {
      e := DailyFirstFire(now);
    }
    phase :| Evenly(e, effective, phase);
  }

  /**
   A loop of one hour to one day that is started off the full and half hours fires first exactly one interval after the
   minute it was started in.
   */
  lemma FirstFireIsOneIntervalOn(effective: int, now: int, t: int) returns (e: Expression)
    requires 60 <= effective <= 1440 && Keepable(effective) && t == now / MINUTE
    requires MinuteOf(t) != 0 && MinuteOf(t) != 30
    ensures Parsed(CadenceLine(effective, now)) == Some(e) && NextAfter(e, t * MINUTE) == Some(t + effective)
  {
    var phase;
    e, phase := StartsInPhase(effective, now);
    FiresEvenly(e, effective, phase, t);
  }
}
