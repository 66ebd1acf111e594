/**
 internal/cron/cron.go, nextAfter: the skipping search, against the first matching minute found by looking at each.
 */
module CronNext {
  import opened Wrappers
  import opened Calendar

  /** The values each field allows. */
  datatype Expression = Expression(minute: set<int>, hour: set<int>, dom: set<int>, month: set<int>, dow: set<int>)

  /** A minute matches when all five fields do: day of month and day of week must both allow its day. */
  predicate Matches(e: Expression, t: int) {
    && DateOf(t).month in e.month
    && DateOf(t).day in e.dom && Weekday(t) in e.dow
    && HourOf(t) in e.hour
    && MinuteOf(t) in e.minute
  }

  const MINUTE: int := 60_000_000_000                   // in nanoseconds
  const HORIZON: int := 4 * 365 * 24 * 60 * MINUTE

  /** The minutes a search started at instant `after` considers. */
  function Opening(after: int): int { after / MINUTE + 1 }
  function Closing(after: int): int { (after + HORIZON + MINUTE - 1) / MINUTE }

  lemma ClosingIsTheDeadline(after: int, t: int)
    ensures t < Closing(after) <==> t * MINUTE < after + HORIZON
  {
  }

  lemma OpeningIsNext(after: int, t: int)
    ensures Opening(after) <= t <==> after < t * MINUTE
  {
  }

  /** The first matching minute of from..until, by looking at every minute. */
  function FirstMatch(e: Expression, from: int, until: int): (r: Option<int>)
    decreases until - from
  {
    if from >= until then None else if Matches(e, from) then Some(from) else FirstMatch(e, from + 1, until)
  }

  function NextAfter(e: Expression, after: int): Option<int> {
    FirstMatch(e, Opening(after), Closing(after))
  }

  predicate NoMatch(e: Expression, from: int, until: int) {
    forall t :: from <= t < until ==> !Matches(e, t)
  }

  predicate IsFirst(e: Expression, from: int, until: int, t: int) {
    from <= t < until && Matches(e, t) && NoMatch(e, from, t)
  }

  lemma {:induction false} FirstMatchIsLeast(e: Expression, from: int, until: int)
    ensures FirstMatch(e, from, until).Some? ==> IsFirst(e, from, until, FirstMatch(e, from, until).value)
    ensures FirstMatch(e, from, until).None? ==> NoMatch(e, from, until)
    decreases until - from
  {
    if from < until && !Matches(e, from) {
      FirstMatchIsLeast(e, from + 1, until);
    }
  }

  /** The least minute that matches, strictly after `after` and before the deadline; nothing exactly when none does. */
  lemma NextAfterIsLeast(e: Expression, after: int)
    ensures NextAfter(e, after).Some? ==>
      var t := NextAfter(e, after).value;
      && after < t * MINUTE < after + HORIZON && Matches(e, t)
      && (forall u :: after < u * MINUTE && u < t ==> !Matches(e, u))
    ensures NextAfter(e, after).None? ==> forall u :: after < u * MINUTE < after + HORIZON ==> !Matches(e, u)
  {
    FirstMatchIsLeast(e, Opening(after), Closing(after));
    forall u
      ensures Opening(after) <= u <==> after < u * MINUTE
      ensures u < Closing(after) <==> u * MINUTE < after + HORIZON
    {
      OpeningIsNext(after, u);
      ClosingIsTheDeadline(after, u);
    }
  }

  /** And it is the only such minute. */
  lemma OnlyNext(e: Expression, after: int, t: int)
    requires after < t * MINUTE < after + HORIZON && Matches(e, t)
    requires NoMatch(e, Opening(after), t)
    ensures NextAfter(e, after) == Some(t)
  {
    NextAfterIsLeast(e, after);
    OpeningIsNext(after, t);
    match NextAfter(e, after)
    case Some(u) => OpeningIsNext(after, u); assert !(u < t) && !(t < u);
    case None =>
  }

  // ---------------------------------------------------------------------------
  // What each skip may assume.

  lemma DayIsOne(t: int, u: int)
    requires t <= u < 1440 * (DayOf(t) + 1)
    ensures DayOf(u) == DayOf(t)
  {
  }

  lemma HourIsOne(t: int, u: int)
    requires t <= u < 60 * (t / 60 + 1)
    ensures DayOf(u) == DayOf(t) && HourOf(u) == HourOf(t)
  {
    assert u / 60 == t / 60;
    HourFromHours(t);
    HourFromHours(u);
  }

  lemma HourFromHours(t: int)
    ensures DayOf(t) == t / 60 / 24 && HourOf(t) == t / 60 % 24
  {
  }

  lemma SkipMonth(e: Expression, from: int, t: int)
    requires NoMatch(e, from, t) && DateOf(t).month !in e.month
    ensures NoMatch(e, from, MonthAfter(t)) && MonthAfter(t) > t
  {
    MonthAfterIsLater(t);
    forall u | t <= u < MonthAfter(t) ensures !Matches(e, u) {
      SameMonthUntil(t, u);
    }
  }

  /** Midnight of the day of an instant, and the start of its hour, as the code rebuilds them with time.Date. */
  function Midnight(t: int): int {
    1440 * DayNumber(DateOf(t))
  }

  function HourStart(t: int): int {
    1440 * DayNumber(DateOf(t)) + 60 * HourOf(t)
  }

  lemma MidnightStartsTheDay(t: int)
    ensures Midnight(t) == 1440 * DayOf(t)
  {
    NumberOfCivil(DayOf(t));
  }

  lemma NextDay(t: int)
    ensures DayOf(t + 1440) == DayOf(t) + 1 && t < 1440 * (DayOf(t) + 1)
  {
  }

  lemma MidnightOfNextDay(t: int)
    ensures Midnight(t + 1440) == 1440 * (DayOf(t) + 1) > t
  {
    MidnightStartsTheDay(t + 1440);
    NextDay(t);
  }

  lemma StartOfNextHour(t: int)
    ensures HourStart(t + 60) == 60 * (t / 60 + 1) > t
  {
    NumberOfCivil(DayOf(t + 60));
    HourFromHours(t + 60);
    assert (t + 60) / 60 == t / 60 + 1;
  }

  lemma SkipDay(e: Expression, from: int, t: int)
    requires NoMatch(e, from, t) && (DateOf(t).day !in e.dom || Weekday(t) !in e.dow)
    ensures NoMatch(e, from, Midnight(t + 1440)) && Midnight(t + 1440) > t
  {
    MidnightOfNextDay(t);
    forall u | t <= u < 1440 * (DayOf(t) + 1) ensures !Matches(e, u) {
      DayIsOne(t, u);
    }
  }

  lemma SkipHour(e: Expression, from: int, t: int)
    requires NoMatch(e, from, t) && HourOf(t) !in e.hour
    ensures NoMatch(e, from, HourStart(t + 60)) && HourStart(t + 60) > t
  {
    StartOfNextHour(t);
    forall u | t <= u < 60 * (t / 60 + 1) ensures !Matches(e, u) {
      HourIsOne(t, u);
    }
  }

  lemma SkipMinute(e: Expression, from: int, t: int)
    requires NoMatch(e, from, t) && MinuteOf(t) !in e.minute
    ensures NoMatch(e, from, t + 1)
  {
  }

  /** One pass: a match, or a move past no match to a later minute. */
  method Pass(e: Expression, t: int, ghost from: int) returns (hit: bool, next: int)
    requires NoMatch(e, from, t)
    ensures hit ==> next == t && Matches(e, t)
    ensures !hit ==> next > t && NoMatch(e, from, next)
  {
    if DateOf(t).month !in e.month {
      SkipMonth(e, from, t);
      return false, MonthAfter(t);
    }
    if DateOf(t).day !in e.dom || Weekday(t) !in e.dow {
      SkipDay(e, from, t);
      next := t + 1440;
      return false, Midnight(next);
    }
    if HourOf(t) !in e.hour {
      SkipHour(e, from, t);
      next := t + 60;
      return false, HourStart(next);
    }
    if MinuteOf(t) !in e.minute {
      SkipMinute(e, from, t);
      return false, t + 1;
    }
    return true, t;
  }

  /** The loop of nextAfter: every pass moves toward the deadline. */
  method SearchAfter(e: Expression, after: int) returns (r: Option<int>)
    ensures r == NextAfter(e, after)
  {
    var t := after / MINUTE + 1;
    while t * MINUTE < after + HORIZON
      invariant Opening(after) <= t && NoMatch(e, Opening(after), t)
      decreases after + HORIZON - t * MINUTE
    {
      var hit, next := Pass(e, t, Opening(after));
      if hit {
        OpeningIsNext(after, t);
        OnlyNext(e, after, t);
        return Some(t);
      }
      t := next;
    }
    NoneLeft(e, after, t);
    return None;
  }

  lemma NoneLeft(e: Expression, after: int, t: int)
    requires NoMatch(e, Opening(after), t) && !(t * MINUTE < after + HORIZON)
    ensures NextAfter(e, after) == None
  {
    ClosingIsTheDeadline(after, t);
    FirstMatchIsLeast(e, Opening(after), Closing(after));
  }
}
