/** A recurring job over any run of ticks: which matching minutes it charges, and how often. */
module Firing {
  import opened Wrappers
  import opened Calendar
  import opened CronNext
  import opened SchedulerSpec
  import OneShot

  // ---------------------------------------------------------------------------
  // The jitter keeps a fire before the next match.

  lemma JitterStaysBelow(e: Expression, base: int, id: string, cron: string, c: Clockwork)
    ensures 0 <= Jitter(e, base, id, cron, c)
    ensures c.next(e, base * MINUTE).Some? && c.next(e, base * MINUTE).value > base ==>
      base * MINUTE + Jitter(e, base, id, cron, c) < c.next(e, base * MINUTE).value * MINUTE
    ensures c.next(e, base * MINUTE).None? ==> Jitter(e, base, id, cron, c) == 0
  {
    var period := Period(e, base, c);
    if period > 0 && MaxJitter(period) > 0 {
      Remainder(c.hash(id, cron, base), MaxJitter(period));
      assert MaxJitter(period) <= period / 10 <= period;
    }
  }

  lemma Remainder(h: nat, m: int)
    requires m > 0
    ensures 0 <= h % m < m
  {
  }

  lemma NextIsAhead(e: Expression, after: int, c: Clockwork)
    requires Genuine(c) && c.next(e, after).Some?
    ensures var n := c.next(e, after).value;
      after < n * MINUTE && Matches(e, n) && forall u :: after < u * MINUTE && u < n ==> !Matches(e, u)
  {
    assert c.next(e, after) == NextAfter(e, after);
    NextAfterIsLeast(e, after);
  }

  /** A recurring fire comes at or after its matching minute, and before the next one. */
  lemma NextFireIsBetween(e: Expression, from: int, id: string, cron: string, c: Clockwork)
    requires Genuine(c) && c.next(e, from).Some?
    ensures var base := c.next(e, from).value;
      var fire := ComputeNextFire(e, from, id, cron, true, c);
      && fire.Some? && from < base * MINUTE <= fire.value
      && (c.next(e, base * MINUTE).Some? ==> fire.value < c.next(e, base * MINUTE).value * MINUTE)
  {
    var base := c.next(e, from).value;
    NextIsAhead(e, from, c);
    JitterStaysBelow(e, base, id, cron, c);
    if c.next(e, base * MINUTE).Some? {
      NextIsAhead(e, base * MINUTE, c);
    }
  }

  // ---------------------------------------------------------------------------
  // Runs.

  /** A job, the matching minute its pending fire is for, and the minutes already charged. */
  datatype Run = Run(job: Option<Job>, base: int, charged: seq<int>)

  function Tick(r: Run, e: Expression, now: int, c: Clockwork): Run {
    if r.job.None? then r
    else
      var next := c.next(e, now);
      var fired := Fires(r.job.value, now);
      Run(TickJob(r.job.value, now, c),
          if fired && next.Some? then next.value else r.base,
          if fired then r.charged + [r.base] else r.charged)
  }

  function Ran(r: Run, e: Expression, times: seq<int>, c: Clockwork): Run
    decreases |times|
  {
    if times == [] then r else Tick(Ran(r, e, times[..|times| - 1], c), e, times[|times| - 1], c)
  }

  predicate Waits(job: Job, base: int, e: Expression, c: Clockwork) {
    && job.recurring && Compiled(job, c) == Some(e)
    && job.nextFire == Some(base * MINUTE + Jitter(e, base, job.id, job.cron, c))
  }

  /** The instant of the fire for minute `m`. */
  function FireOf(job: Job, e: Expression, m: int, c: Clockwork): int {
    m * MINUTE + Jitter(e, m, job.id, job.cron, c)
  }

  /** Every match after `from` whose fire precedes the job's expiry has a next match in the horizon. */
  ghost predicate Lasting(job: Job, e: Expression, from: int, c: Clockwork) {
    forall m :: Matches(e, m) && from < m * MINUTE && !Expired(job, FireOf(job, e, m, c)) ==>
      c.next(e, m * MINUTE).Some?
  }

  /** The job goes on as the same job. */
  predicate SameJob(r: Run, job: Job) {
    r.job.Some? ==> var now := r.job.value; now.id == job.id && now.cron == job.cron && now.expiresAt == job.expiresAt
  }

  predicate Ascending(s: seq<int>) {
    forall i, j :: 0 <= i < j < |s| ==> s[i] < s[j]
  }

  /** Only matching minutes after `from` are charged, in order, and before the one that is pending. */
  ghost predicate WellCharged(r: Run, e: Expression, from: int) {
    && Ascending(r.charged)
    && (forall i :: 0 <= i < |r.charged| ==> Matches(e, r.charged[i]) && from < r.charged[i] * MINUTE)
    && Matches(e, r.base) && from < r.base * MINUTE
    && (r.job.Some? ==> forall i :: 0 <= i < |r.charged| ==> r.charged[i] < r.base)
  }

  ghost predicate Steady(r: Run, job: Job, e: Expression, from: int, c: Clockwork) {
    (r.job.Some? ==> Waits(r.job.value, r.base, e, c)) && SameJob(r, job) && WellCharged(r, e, from)
  }

  /** As long as matches have next matches, a next match is in sight at every instant from a fire to the expiry. */
  lemma {:induction false} NextInSight(job: Job, e: Expression, from: int, m: int, now: int, c: Clockwork)
    requires Genuine(c) && Lasting(job, e, from, c) && Matches(e, m) && from < m * MINUTE
    requires FireOf(job, e, m, c) <= now && !Expired(job, now)
    ensures c.next(e, now).Some? && c.next(e, m * MINUTE).Some?
    decreases now - m * MINUTE
  {
    JitterStaysBelow(e, m, job.id, job.cron, c);
    var u := c.next(e, m * MINUTE).value;
    NextIsAhead(e, m * MINUTE, c);
    if u * MINUTE <= now {
      JitterStaysBelow(e, u, job.id, job.cron, c);
      LastsAt(job, e, from, u, now, c);
      if FireOf(job, e, u, c) <= now {
        NextInSight(job, e, from, u, now, c);
      } else {
        InSightBefore(e, u, now, c);
      }
    } else {
      InSightBefore(e, m, now, c);
    }
  }

  /** A match without a next one has no jitter: its fire is the match itself. */
  lemma LastsAt(job: Job, e: Expression, from: int, m: int, now: int, c: Clockwork)
    requires Genuine(c) && Lasting(job, e, from, c) && Matches(e, m) && from < m * MINUTE <= now && !Expired(job, now)
    ensures c.next(e, m * MINUTE).Some?
  {
    JitterStaysBelow(e, m, job.id, job.cron, c);
  }

  /** The next match after `m` is in sight until it comes. */
  lemma InSightBefore(e: Expression, m: int, now: int, c: Clockwork)
    requires Genuine(c) && c.next(e, m * MINUTE).Some? && m * MINUTE <= now < c.next(e, m * MINUTE).value * MINUTE
    ensures c.next(e, now).Some?
  {
    assert c.next(e, m * MINUTE) == NextAfter(e, m * MINUTE) && c.next(e, now) == NextAfter(e, now);
    NextAfterIsLeast(e, m * MINUTE);
    NextAfterIsLeast(e, now);
  }

  lemma FireMovesOn(r: Run, e: Expression, now: int, c: Clockwork)
    requires Genuine(c) && r.job.Some? && Waits(r.job.value, r.base, e, c) && Fires(r.job.value, now) &&
      c.next(e, now).Some?
    ensures var t := Tick(r, e, now, c);
      && t.charged == r.charged + [r.base] && t.base == c.next(e, now).value > r.base && Matches(e, t.base)
      && r.base * MINUTE <= now < t.base * MINUTE
      && t.job.Some? && Waits(t.job.value, t.base, e, c)
  {
    var job := r.job.value;
    JitterStaysBelow(e, r.base, job.id, job.cron, c);
    NextIsAhead(e, now, c);
  }

  lemma TickKeepsSteady(r: Run, job: Job, e: Expression, now: int, from: int, c: Clockwork)
    requires Genuine(c) && Lasting(job, e, from, c) && Steady(r, job, e, from, c)
    ensures Steady(Tick(r, e, now, c), job, e, from, c)
  {
    if r.job.Some? && Fires(r.job.value, now) {
      NextInSight(job, e, from, r.base, now, c);
      FireMovesOn(r, e, now, c);
    }
  }

  lemma {:induction false} RunKeepsSteady(r: Run, job: Job, e: Expression, times: seq<int>, from: int, c: Clockwork)
    requires Genuine(c) && Lasting(job, e, from, c) && Steady(r, job, e, from, c)
    ensures Steady(Ran(r, e, times, c), job, e, from, c)
    decreases |times|
  {
    if times == [] {
    } else {
      RunKeepsSteady(r, job, e, times[..|times| - 1], from, c);
      TickKeepsSteady(Ran(r, e, times[..|times| - 1], c), job, e, times[|times| - 1], from, c);
    }
  }

  /** A recurring job as it is created or adopted at `from`. */
  ghost predicate Starts(r: Run, e: Expression, from: int, c: Clockwork) {
    && r.job.Some? && r.charged == [] && c.next(e, from) == Some(r.base)
    && r.job.value.recurring && Compiled(r.job.value, c) == Some(e)
    && r.job.value.nextFire == ComputeNextFire(e, from, r.job.value.id, r.job.value.cron, true, c)
  }

  lemma StartsSteady(r: Run, e: Expression, from: int, c: Clockwork)
    requires Genuine(c) && Starts(r, e, from, c)
    ensures Steady(r, r.job.value, e, from, c)
  {
    NextIsAhead(e, from, c);
  }

  /** Over any ticks, on any clock: the charged minutes all match, and each is charged at most once, in order. */
  lemma EachMinuteAtMostOnce(r: Run, e: Expression, from: int, times: seq<int>, c: Clockwork)
    requires Genuine(c) && Starts(r, e, from, c) && Lasting(r.job.value, e, from, c)
    ensures WellCharged(Ran(r, e, times, c), e, from)
  {
    StartsSteady(r, e, from, c);
    RunKeepsSteady(r, r.job.value, e, times, from, c);
  }

  // ---------------------------------------------------------------------------
  // Exactly once, when ticks are frequent enough.

  predicate NeverBack(times: seq<int>) {
    forall i, j :: 0 <= i < j < |times| ==> times[i] <= times[j]
  }

  /** Instant `t` lies between the pending fire and the match after its minute. */
  predicate InWindow(r: Run, e: Expression, t: int, c: Clockwork) {
    && r.job.Some? && r.job.value.nextFire.Some? && r.job.value.nextFire.value <= t
    && c.next(e, r.base * MINUTE).Some? && t < c.next(e, r.base * MINUTE).value * MINUTE
  }

  ghost predicate SomeTickInWindow(r: Run, e: Expression, times: seq<int>, c: Clockwork) {
    exists j :: 0 <= j < |times| && InWindow(r, e, times[j], c)
  }

  /** Every fire that comes due has some tick in its window. */
  ghost predicate Covered(r: Run, e: Expression, times: seq<int>, c: Clockwork) {
    forall i :: 0 <= i < |times| ==> Attended(Ran(r, e, times[..i], c), e, times[i], times, c)
  }

  ghost predicate Attended(r: Run, e: Expression, now: int, times: seq<int>, c: Clockwork) {
    r.job.Some? && Fires(r.job.value, now) ==> SomeTickInWindow(r, e, times, c)
  }

  predicate AllBefore(times: seq<int>, job: Job) {
    forall i :: 0 <= i < |times| ==> job.nextFire.Some? && times[i] < job.nextFire.value
  }

  /** No matching minute since the start is missing. */
  ghost predicate NoneMissing(r: Run, e: Expression, from: int) {
    forall m :: Matches(e, m) && from < m * MINUTE && m < r.base ==> m in r.charged
  }

  ghost predicate UpToDate(r: Run, job: Job, e: Expression, from: int, past: seq<int>, c: Clockwork) {
    Steady(r, job, e, from, c) && (r.job.Some? ==> NoneMissing(r, e, from) && AllBefore(past, r.job.value))
  }

  lemma AllBeforeAt(times: seq<int>, i: nat, j: nat, job: Job)
    requires i <= |times| && j < |times| && AllBefore(times[..i], job)
    ensures j < i ==> job.nextFire.Some? && times[j] < job.nextFire.value
  {
    if j < i {
      assert times[..i][j] == times[j];
    }
  }

  lemma InTime(r: Run, e: Expression, times: seq<int>, i: nat, c: Clockwork)
    requires NeverBack(times) && i < |times| && r.job.Some? && AllBefore(times[..i], r.job.value)
    requires SomeTickInWindow(r, e, times, c)
    ensures c.next(e, r.base * MINUTE).Some? && times[i] < c.next(e, r.base * MINUTE).value * MINUTE
  {
    var j :| 0 <= j < |times| && InWindow(r, e, times[j], c);
    AllBeforeAt(times, i, j, r.job.value);
  }

  lemma NoMatchSkipped(r: Run, e: Expression, now: int, c: Clockwork)
    requires Genuine(c) && c.next(e, now).Some? && r.base * MINUTE <= now
    requires c.next(e, r.base * MINUTE).Some? && now < c.next(e, r.base * MINUTE).value * MINUTE
    ensures c.next(e, now) == c.next(e, r.base * MINUTE)
  {
    NextIsAhead(e, now, c);
    NextIsAhead(e, r.base * MINUTE, c);
    var a, b := c.next(e, now).value, c.next(e, r.base * MINUTE).value;
    assert !(a < b) && !(b < a);
  }

  lemma FireMissesNothing(r: Run, e: Expression, now: int, from: int, c: Clockwork)
    requires Genuine(c) && NoneMissing(r, e, from) && c.next(e, r.base * MINUTE).Some?
    ensures NoneMissing(Run(r.job, c.next(e, r.base * MINUTE).value, r.charged + [r.base]), e, from)
  {
    NextIsAhead(e, r.base * MINUTE, c);
  }

  lemma TickKeepsUp(r: Run, job: Job, e: Expression, times: seq<int>, i: nat, from: int, c: Clockwork)
    requires Genuine(c) && Lasting(job, e, from, c) && NeverBack(times) && i < |times|
    requires UpToDate(r, job, e, from, times[..i], c) && Attended(r, e, times[i], times, c)
    ensures UpToDate(Tick(r, e, times[i], c), job, e, from, times[..i + 1], c)
  {
    var now := times[i];
    TickKeepsSteady(r, job, e, now, from, c);
    assert times[..i + 1] == times[..i] + [now];
    if r.job.Some? && Fires(r.job.value, now) {
      NextInSight(job, e, from, r.base, now, c);
      FireMovesOn(r, e, now, c);
      InTime(r, e, times, i, c);
      NoMatchSkipped(r, e, now, c);
      FireMissesNothing(r, e, now, from, c);
      FireIsAhead(Tick(r, e, now, c), e, now, times[..i + 1], c);
    }
  }

  lemma FireIsAhead(t: Run, e: Expression, now: int, past: seq<int>, c: Clockwork)
    requires t.job.Some? && Waits(t.job.value, t.base, e, c) && now < t.base * MINUTE
    requires forall i :: 0 <= i < |past| ==> past[i] <= now
    ensures AllBefore(past, t.job.value)
  {
    JitterStaysBelow(e, t.base, t.job.value.id, t.job.value.cron, c);
  }

  lemma {:induction false} RunKeepsUp(r: Run, job: Job, e: Expression, times: seq<int>, i: nat, from: int, c: Clockwork)
    requires Genuine(c) && Lasting(job, e, from, c) && NeverBack(times) && i <= |times|
    requires UpToDate(r, job, e, from, [], c) && Covered(r, e, times, c)
    ensures UpToDate(Ran(r, e, times[..i], c), job, e, from, times[..i], c)
  {
    if i == 0 {
      assert times[..0] == [];
    } else {
      RunKeepsUp(r, job, e, times, i - 1, from, c);
      assert Attended(Ran(r, e, times[..i - 1], c), e, times[i - 1], times, c);
      TickKeepsUp(Ran(r, e, times[..i - 1], c), job, e, times, i - 1, from, c);
      assert times[..i][..i - 1] == times[..i - 1];
    }
  }

  /** The number of times a minute was charged. */
  function Charges(s: seq<int>, m: int): nat {
    multiset(s)[m]
  }

  lemma {:induction false} AscendingOnce(s: seq<int>, m: int)
    requires Ascending(s)
    ensures Charges(s, m) == if m in s then 1 else 0
    decreases |s|
  {
    if s == [] {
    } else {
      var n := |s| - 1;
      assert s == s[..n] + [s[n]];
      AscendingOnce(s[..n], m);
      if m in s[..n] {
        var i :| 0 <= i < n && s[..n][i] == m;
        assert s[i] < s[n];
      }
    }
  }

  /** The tick at `now` comes at or after the fire of minute `m`, and not after the job's expiry. */
  predicate Reaches(job: Job, e: Expression, m: int, now: int, c: Clockwork) {
    !Expired(job, now) && FireOf(job, e, m, c) <= now
  }

  ghost predicate Reached(job: Job, e: Expression, m: int, times: seq<int>, c: Clockwork) {
    exists j :: 0 <= j < |times| && Reaches(job, e, m, times[j], c)
  }

  /** Only reached minutes are charged. */
  lemma {:induction false} ChargedWasReached(r: Run, e: Expression, from: int, times: seq<int>, c: Clockwork)
    requires Genuine(c) && Starts(r, e, from, c) && Lasting(r.job.value, e, from, c)
    ensures forall m :: m in Ran(r, e, times, c).charged ==> Reached(r.job.value, e, m, times, c)
    decreases |times|
  {
    if times == [] {
      assert Ran(r, e, times, c) == r;
    } else {
      var past, now := times[..|times| - 1], times[|times| - 1];
      ChargedWasReached(r, e, from, past, c);
      StartsSteady(r, e, from, c);
      RunKeepsSteady(r, r.job.value, e, past, from, c);
      var u := Ran(r, e, past, c);
      forall m | m in Ran(r, e, times, c).charged ensures Reached(r.job.value, e, m, times, c) {
        if m in u.charged {
          var j :| 0 <= j < |past| && Reaches(r.job.value, e, m, past[j], c);
          assert times[j] == past[j];
        } else {
          assert Reaches(r.job.value, e, m, times[|times| - 1], c);
        }
      }
    }
  }

  /** Before its expiry a recurring job is alive, and what was charged stays charged. */
  lemma {:induction false} AliveUntilExpiry(r: Run, e: Expression, from: int, times: seq<int>, i: nat, c: Clockwork)
    requires Genuine(c) && Starts(r, e, from, c) && Lasting(r.job.value, e, from, c) && i <= |times|
    requires forall k :: 0 <= k < i ==> !Expired(r.job.value, times[k])
    ensures Ran(r, e, times[..i], c).job.Some?
  {
    if i == 0 {
      assert Ran(r, e, times[..0], c) == r;
    } else {
      AliveUntilExpiry(r, e, from, times, i - 1, c);
      StartsSteady(r, e, from, c);
      RunKeepsSteady(r, r.job.value, e, times[..i - 1], from, c);
      assert times[..i][..i - 1] == times[..i - 1];
    }
  }

  lemma {:induction false} ChargesStay(r: Run, e: Expression, times: seq<int>, i: nat, c: Clockwork)
    requires i <= |times|
    ensures Ran(r, e, times[..i], c).charged <= Ran(r, e, times, c).charged
    decreases |times| - i
  {
    if i == |times| {
      assert times[..i] == times;
    } else {
      assert times[..i + 1][..i] == times[..i];
      ChargesStay(r, e, times, i + 1, c);
    }
  }

  /** A job that is up to date has charged every minute reached so far. */
  lemma ReachedIsPast(u: Run, job: Job, e: Expression, from: int, past: seq<int>, m: int, c: Clockwork)
    requires Genuine(c) && UpToDate(u, job, e, from, past, c) && u.job.Some?
    requires past != [] && Matches(e, m) && from < m * MINUTE && Reaches(job, e, m, past[|past| - 1], c)
    ensures m in u.charged
  {
    var now := past[|past| - 1];
    assert now < u.job.value.nextFire.value;
    JitterStaysBelow(e, u.base, job.id, job.cron, c);
    JitterStaysBelow(e, m, job.id, job.cron, c);
    if c.next(e, u.base * MINUTE).Some? {
      NextIsAhead(e, u.base * MINUTE, c);
    }
    assert m < u.base;
  }

  /** Before its expiry a covered job is alive, still the same, and up to date. */
  lemma UpToDateUntilExpiry(r: Run, e: Expression, from: int, times: seq<int>, j: nat, c: Clockwork)
    requires Genuine(c) && Starts(r, e, from, c) && Lasting(r.job.value, e, from, c) && NeverBack(times) &&
      Covered(r, e, times, c)
    requires j < |times| && !Expired(r.job.value, times[j])
    ensures var u := Ran(r, e, times[..j + 1], c);
      u.job.Some? && UpToDate(u, r.job.value, e, from, times[..j + 1], c)
  {
    AliveUntilExpiry(r, e, from, times, j + 1, c);
    StartsUpToDate(r, e, from, c);
    RunKeepsUp(r, r.job.value, e, times, j + 1, from, c);
  }

  lemma StartsUpToDate(r: Run, e: Expression, from: int, c: Clockwork)
    requires Genuine(c) && Starts(r, e, from, c)
    ensures UpToDate(r, r.job.value, e, from, [], c)
  {
    StartsSteady(r, e, from, c);
    NextIsAhead(e, from, c);
  }

  lemma ReachedIsCharged(r: Run, e: Expression, from: int, times: seq<int>, j: nat, m: int, c: Clockwork)
    requires Genuine(c) && Starts(r, e, from, c) && Lasting(r.job.value, e, from, c) && NeverBack(times) &&
      Covered(r, e, times, c)
    requires Matches(e, m) && from < m * MINUTE && j < |times| && Reaches(r.job.value, e, m, times[j], c)
    ensures m in Ran(r, e, times, c).charged
  {
    UpToDateUntilExpiry(r, e, from, times, j, c);
    ReachedIsPast(Ran(r, e, times[..j + 1], c), r.job.value, e, from, times[..j + 1], m, c);
    ChargesStay(r, e, times, j + 1, c);
  }

  /**
   With a clock that never goes back and some tick in the window of every due fire, over any run, expired or not: a
   matching minute since the creation whose fire some tick reached before the expiry is charged exactly once, and no
   other minute is charged.
   */
  lemma EachMinuteExactlyOnce(r: Run, e: Expression, from: int, times: seq<int>, c: Clockwork, m: int)
    requires Genuine(c) && Starts(r, e, from, c) && Lasting(r.job.value, e, from, c) && NeverBack(times) &&
      Covered(r, e, times, c)
    ensures Charges(Ran(r, e, times, c).charged, m) ==
      if Matches(e, m) && from < m * MINUTE && Reached(r.job.value, e, m, times, c) then 1 else 0
  {
    EachMinuteAtMostOnce(r, e, from, times, c);
    AscendingOnce(Ran(r, e, times, c).charged, m);
    ChargedWasReached(r, e, from, times, c);
    if Matches(e, m) && from < m * MINUTE && Reached(r.job.value, e, m, times, c) {
      var j :| 0 <= j < |times| && Reaches(r.job.value, e, m, times[j], c);
      ReachedIsCharged(r, e, from, times, j, m, c);
    }
  }

  // ---------------------------------------------------------------------------
  // How frequent is frequent enough: less than nine tenths of a minute apart, whatever the line.

  const TICK := 30 * 1_000_000_000

  function Previous(times: seq<int>, i: nat, from: int): int
    requires i < |times|
  {
    if i == 0 then from else times[i - 1]
  }

  /** Ticks at most `gap` apart, from the start on. */
  predicate Apart(times: seq<int>, from: int, gap: int) {
    forall i :: 0 <= i < |times| ==> Previous(times, i, from) <= times[i] <= Previous(times, i, from) + gap
  }

  lemma {:induction false} ApartIsNeverBack(times: seq<int>, from: int, gap: int, i: nat, j: nat)
    requires Apart(times, from, gap) && i <= j < |times|
    ensures times[i] <= times[j]
  {
    if i == j {
    } else {
      ApartIsNeverBack(times, from, gap, i, j - 1);
      assert Previous(times, j, from) <= times[j];
    }
  }

  /** The window of a fire is at least nine tenths of a minute long. */
  lemma WindowIsLong(e: Expression, base: int, id: string, cron: string, c: Clockwork)
    requires Genuine(c) && c.next(e, base * MINUTE).Some?
    ensures base * MINUTE + Jitter(e, base, id, cron, c) + MINUTE * 9 / 10 <= c.next(e, base * MINUTE).value * MINUTE
  {
    NextIsAhead(e, base * MINUTE, c);
    var period := Period(e, base, c);
    assert period >= MINUTE;
    if MaxJitter(period) > 0 {
      Remainder(c.hash(id, cron, base), MaxJitter(period));
      assert MaxJitter(period) <= period / 10;
    }
  }

  /** The job waits, steadily, for a fire that lies after all ticks so far. */
  ghost predicate Pending(u: Run, job: Job, e: Expression, from: int, past: seq<int>, c: Clockwork) {
    Steady(u, job, e, from, c) && (u.job.Some? ==> AllBefore(past, u.job.value))
  }

  lemma TickKeepsPending(u: Run, job: Job, e: Expression, from: int, times: seq<int>, i: nat, c: Clockwork)
    requires Genuine(c) && Lasting(job, e, from, c) && NeverBack(times) && i < |times|
    requires Pending(u, job, e, from, times[..i], c)
    ensures Pending(Tick(u, e, times[i], c), job, e, from, times[..i + 1], c)
  {
    var now := times[i];
    TickKeepsSteady(u, job, e, now, from, c);
    assert times[..i + 1] == times[..i] + [now];
    if u.job.Some? && Fires(u.job.value, now) {
      NextInSight(job, e, from, u.base, now, c);
      FireMovesOn(u, e, now, c);
      FireIsAhead(Tick(u, e, now, c), e, now, times[..i + 1], c);
    }
  }

  /** All ticks so far lie before the pending fire, on any clock that never goes back. */
  lemma {:induction false} PendingIsAhead(r: Run, e: Expression, from: int, times: seq<int>, i: nat, c: Clockwork)
    requires Genuine(c) && Starts(r, e, from, c) && Lasting(r.job.value, e, from, c) && NeverBack(times) && i <= |times|
    ensures Pending(Ran(r, e, times[..i], c), r.job.value, e, from, times[..i], c)
  {
    if i == 0 {
      StartsSteady(r, e, from, c);
      assert times[..0] == [];
    } else {
      PendingIsAhead(r, e, from, times, i - 1, c);
      TickKeepsPending(Ran(r, e, times[..i - 1], c), r.job.value, e, from, times, i - 1, c);
      assert times[..i][..i - 1] == times[..i - 1];
    }
  }

  lemma FrequentIsCovered(r: Run, e: Expression, from: int, times: seq<int>, c: Clockwork)
    requires Genuine(c) && Starts(r, e, from, c) && Lasting(r.job.value, e, from, c) &&
      Apart(times, from, MINUTE * 9 / 10 - 1)
    ensures NeverBack(times) && Covered(r, e, times, c)
  {
    StartsSteady(r, e, from, c);
    forall i, j | 0 <= i < j < |times| ensures times[i] <= times[j] {
      ApartIsNeverBack(times, from, MINUTE * 9 / 10 - 1, i, j);
    }
    forall i | 0 <= i < |times| ensures Attended(Ran(r, e, times[..i], c), e, times[i], times, c) {
      var u := Ran(r, e, times[..i], c);
      PendingIsAhead(r, e, from, times, i, c);
      if u.job.Some? && Fires(u.job.value, times[i]) {
        JitterStaysBelow(e, u.base, u.job.value.id, u.job.value.cron, c);
        NextInSight(r.job.value, e, from, u.base, times[i], c);
        WindowIsLong(e, u.base, u.job.value.id, u.job.value.cron, c);
        assert i > 0 ==> times[..i][i - 1] == times[i - 1];
        assert Previous(times, i, from) < u.job.value.nextFire.value;
        assert InWindow(u, e, times[i], c);
      }
    }
  }

  /**
   So with the program's own ticker, every 30 seconds and late by less than 24, no matching minute is missed or
   repeated.
   */
  lemma TickerMissesNothing(r: Run, e: Expression, from: int, times: seq<int>, c: Clockwork, m: int, late: int)
    requires Genuine(c) && Starts(r, e, from, c) && Lasting(r.job.value, e, from, c)
    requires 0 <= late < MINUTE * 9 / 10 - TICK && Apart(times, from, TICK + late)
    ensures Charges(Ran(r, e, times, c).charged, m) ==
      if Matches(e, m) && from < m * MINUTE && Reached(r.job.value, e, m, times, c) then 1 else 0
  {
    assert Apart(times, from, MINUTE * 9 / 10 - 1);
    FrequentIsCovered(r, e, from, times, c);
    EachMinuteExactlyOnce(r, e, from, times, c, m);
  }

  // ---------------------------------------------------------------------------
  // When matches do run out: a minute is charged again.

  ghost predicate NeverRepeats(s: seq<int>) {
    forall i, j :: 0 <= i < j < |s| ==> s[i] != s[j]
  }

  /** The state at the instant before match `m`, which is then the pending one. */
  lemma ComesBefore(r: Run, e: Expression, from: int, m: int, c: Clockwork) returns (times: seq<int>)
    requires Genuine(c) && Starts(r, e, from, c) && Matches(e, m) && from < m * MINUTE && c.next(e, m * MINUTE).None?
    requires !Expired(r.job.value, m * MINUTE)
    ensures var u := Ran(r, e, times, c);
      u.job.Some? && u.base == m && SameJob(u, r.job.value) && Waits(u.job.value, m, e, c)
  {
    StartsSteady(r, e, from, c);
    if r.base == m {
      times := [];
    } else {
      var now := m * MINUTE - 1;
      times := [now];
      assert times[..0] == [] && Ran(r, e, [], c) == r;
      LeastIsFirst(e, from, m, c);
      NextBefore(e, m, from, c);
      JitterStaysBelow(e, r.base, r.job.value.id, r.job.value.cron, c);
      FiresBefore(r, e, m, c);
      FireMovesOn(r, e, now, c);
    }
  }

  lemma LeastIsFirst(e: Expression, from: int, m: int, c: Clockwork)
    requires Genuine(c) && c.next(e, from).Some? && Matches(e, m) && from < m * MINUTE
    ensures c.next(e, from).value <= m
  {
    NextIsAhead(e, from, c);
  }

  lemma NextBefore(e: Expression, m: int, from: int, c: Clockwork)
    requires Genuine(c) && Matches(e, m)
    ensures c.next(e, m * MINUTE - 1) == Some(m)
  {
    assert c.next(e, m * MINUTE - 1) == NextAfter(e, m * MINUTE - 1);
    NextAfterIsLeast(e, m * MINUTE - 1);
  }

  lemma FiresBefore(r: Run, e: Expression, m: int, c: Clockwork)
    requires Genuine(c) && r.job.Some? && Waits(r.job.value, r.base, e, c) && r.base < m && Matches(e, m)
    requires !Expired(r.job.value, m * MINUTE)
    ensures Fires(r.job.value, m * MINUTE - 1)
  {
    JitterStaysBelow(e, r.base, r.job.value.id, r.job.value.cron, c);
    if c.next(e, r.base * MINUTE).Some? {
      LeastIsFirst(e, r.base * MINUTE, m, c);
    }
  }

  /** A match without a next one is charged at every tick from then on. */
  lemma ChargedTwice(u: Run, e: Expression, m: int, c: Clockwork)
    requires Genuine(c) && u.job.Some? && u.base == m && Waits(u.job.value, m, e, c) && c.next(e, m * MINUTE).None?
    requires !Expired(u.job.value, m * MINUTE)
    ensures var v := Tick(u, e, m * MINUTE, c); Tick(v, e, m * MINUTE, c).charged == u.charged + [m] + [m]
  {
    JitterStaysBelow(e, m, u.job.value.id, u.job.value.cron, c);
  }

  lemma TwoMoreTicks(r: Run, e: Expression, times: seq<int>, now: int, c: Clockwork)
    ensures Ran(r, e, times + [now] + [now], c) == Tick(Tick(Ran(r, e, times, c), e, now, c), e, now, c)
  {
    var once := times + [now];
    assert once[..|times|] == times && (once + [now])[..|once|] == once;
  }

  lemma TwiceIsSeen(s: seq<int>, m: int)
    ensures !NeverRepeats(s + [m] + [m])
  {
    var t := s + [m] + [m];
    assert t[|s|] == m && t[|s| + 1] == m;
  }

  lemma RunsOut(r: Run, e: Expression, from: int, m: int, c: Clockwork) returns (times: seq<int>)
    requires Genuine(c) && Starts(r, e, from, c) && Matches(e, m) && from < m * MINUTE && c.next(e, m * MINUTE).None?
    requires !Expired(r.job.value, FireOf(r.job.value, e, m, c))
    ensures !NeverRepeats(Ran(r, e, times, c).charged)
  {
    JitterStaysBelow(e, m, r.job.value.id, r.job.value.cron, c);
    var before := ComesBefore(r, e, from, m, c);
    var u := Ran(r, e, before, c);
    ChargedTwice(u, e, m, c);
    TwoMoreTicks(r, e, before, m * MINUTE, c);
    TwiceIsSeen(u.charged, m);
    times := before + [m * MINUTE] + [m * MINUTE];
  }

  /**
   Over all ticks on all clocks no minute is charged twice if and only if every match whose fire precedes the job's
   expiry has a next match in the horizon.
   */
  lemma AtMostOnceIffLasting(r: Run, e: Expression, from: int, c: Clockwork)
    requires Genuine(c) && Starts(r, e, from, c)
    ensures (forall times :: NeverRepeats(Ran(r, e, times, c).charged)) <==> Lasting(r.job.value, e, from, c)
  {
    if Lasting(r.job.value, e, from, c) {
      forall times ensures NeverRepeats(Ran(r, e, times, c).charged) {
        EachMinuteAtMostOnce(r, e, from, times, c);
      }
    } else {
      var m :| Matches(e, m) && from < m * MINUTE && !Expired(r.job.value, FireOf(r.job.value, e, m, c))
        && c.next(e, m * MINUTE).None?;
      var times := RunsOut(r, e, from, m, c);
    }
  }


  /** A job that fires is due again at every later instant, before its next match, exactly when no match is in sight. */
  lemma FiresAgainIff(job: Job, e: Expression, now: int, later: int, c: Clockwork)
    requires Genuine(c) && job.recurring && Compiled(job, c) == Some(e) && Fires(job, now)
    requires now <= later && (c.next(e, now).Some? ==> later < c.next(e, now).value * MINUTE)
    ensures TickJob(job, now, c).Some?
    ensures Due(TickJob(job, now, c).value, later) <==> c.next(e, now).None?
  {
    if c.next(e, now).Some? {
      NextFireIsBetween(e, now, job.id, job.cron, c);
    }
  }

  lemma LeapGap(d: Date)
    requires Real(d) && d.month == 2 && d.day == 29
    ensures OneShot.Gap(d) >= 1461
  {
    var y := OneShot.PreviousYear(d);
    OneShot.PreviousYearIs(d, d.year);
    OneShot.NextYear(y, 2, 29);
    OneShot.YearsApart(y + 1, d.year, 2, 29);
  }

  /**
   A yearly job on 29 February finds no further match for a whole day after it fires: leap days lie 1461 days apart.
   */
  lemma LeapDayRunsOut(e: Expression, t: int, now: int)
    requires OneShot.Once(e, t) && DateOf(t).month == 2 && DateOf(t).day == 29
    requires t * MINUTE <= now <= (t + 1440) * MINUTE
    ensures NextAfter(e, now) == None
  {
    NextAfterIsLeast(e, now);
    if NextAfter(e, now).Some? {
      var u := NextAfter(e, now).value;
      SameLeapDay(e, t, u);
      LaterLeapDay(e, t, u);
    }
  }

  /** So a recurring job on 29 February that lives on that day has runs that charge it again. */
  lemma LeapDayRepeats(r: Run, e: Expression, from: int, t: int, c: Clockwork) returns (times: seq<int>)
    requires Genuine(c) && Starts(r, e, from, c) && OneShot.Once(e, t) && DateOf(t).month == 2 && DateOf(t).day == 29
    requires from < t * MINUTE && !Expired(r.job.value, t * MINUTE)
    ensures !NeverRepeats(Ran(r, e, times, c).charged)
  {
    OneShot.OnceMatches(e, t, t);
    LeapDayRunsOut(e, t, t * MINUTE);
    assert c.next(e, t * MINUTE) == NextAfter(e, t * MINUTE);
    JitterStaysBelow(e, t, r.job.value.id, r.job.value.cron, c);
    times := RunsOut(r, e, from, t, c);
  }

  lemma SameLeapDay(e: Expression, t: int, u: int)
    requires OneShot.Once(e, t) && Matches(e, u) && DateOf(t).month == 2 && DateOf(t).day == 29
    ensures OneShot.Once(e, u) && DateOf(u).month == 2 && DateOf(u).day == 29
  {
    OneShot.OnceMatches(e, t, u);
  }

  lemma LaterLeapDay(e: Expression, t: int, u: int)
    requires OneShot.Once(e, u) && Matches(e, t) && t < u && DateOf(u).month == 2 && DateOf(u).day == 29
    ensures u - t >= 1440 * 1461
  {
    OneShot.EarlierMatch(e, u, t);
    LeapGap(DateOf(u));
  }
}
