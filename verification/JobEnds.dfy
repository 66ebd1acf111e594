/**
 internal/cron/store.go: what becomes of one job in a scheduler's table over any run of ticks, on any clock. When it
 fires, and that it is over once it is a one-shot that fired, has expired, or cannot be read.
 */
module JobEnds {
  import opened Wrappers
  import opened CronNext
  import opened SchedulerSpec
  import opened Firing
  import CronParse
  import OneShot

  /** The table after ticks at these instants. */
  function Table(jobs: map<string, Job>, times: seq<int>, c: Clockwork): map<string, Job>
    decreases |times|
  {
    if times == [] then jobs else Ticked(Table(jobs, times[..|times| - 1], c), times[|times| - 1], c)
  }

  /** Tick number `i` reports the job as fired. */
  predicate FiresIn(jobs: map<string, Job>, times: seq<int>, i: nat, id: string, c: Clockwork)
    requires i < |times|
  {
    var before := Table(jobs, times[..i], c);
    id in before && Fires(before[id], times[i])
  }

  lemma OneMoreTick(jobs: map<string, Job>, times: seq<int>, i: nat, c: Clockwork)
    requires i < |times|
    ensures Table(jobs, times[..i + 1], c) == Ticked(Table(jobs, times[..i], c), times[i], c)
  {
    assert times[..i + 1][..i] == times[..i];
  }

  ghost predicate OutAfter(jobs: map<string, Job>, times: seq<int>, n: nat, id: string, c: Clockwork)
    requires n <= |times|
  {
    id !in Table(jobs, times[..n], c)
  }

  lemma OutForOneMore(jobs: map<string, Job>, times: seq<int>, n: nat, id: string, c: Clockwork)
    requires n < |times| && OutAfter(jobs, times, n, id, c)
    ensures OutAfter(jobs, times, n + 1, id, c)
  {
    OneMoreTick(jobs, times, n, c);
  }

  lemma StaysOut(jobs: map<string, Job>, times: seq<int>, i: nat, j: nat, id: string, c: Clockwork)
    requires i <= j <= |times| && OutAfter(jobs, times, i, id, c)
    ensures OutAfter(jobs, times, j, id, c)
  {
    for k := i to j
      invariant OutAfter(jobs, times, k, id, c)
    {
      OutForOneMore(jobs, times, k, id, c);
    }
  }

  /** A job that is not in the table stays out of it and does not fire. */
  lemma OverIsOver(jobs: map<string, Job>, times: seq<int>, i: nat, j: nat, id: string, c: Clockwork)
    requires i <= j <= |times| && id !in Table(jobs, times[..i], c)
    ensures id !in Table(jobs, times[..j], c) && (j < |times| ==> !FiresIn(jobs, times, j, id, c))
  {
    StaysOut(jobs, times, i, j, id, c);
  }

  // ---------------------------------------------------------------------------
  // Jobs without a future: one-shots, and recurring jobs whose line cannot be read.

  /** The instant lies before the job's next fire, and not after its expiry. */
  predicate StillWaits(job: Job, t: int) {
    && job.nextFire.Some? && t < job.nextFire.value
    && (job.expiresAt.Some? ==> t <= job.expiresAt.value)
  }

  predicate WaitsThrough(job: Job, times: seq<int>, n: nat)
    requires n <= |times|
  {
    forall k :: 0 <= k < n ==> StillWaits(job, times[k])
  }

  /** The job will not fire a second time: it is a one-shot, or its line cannot be read. */
  predicate FiresAtMostOnce(job: Job, c: Clockwork) {
    !job.recurring || Compiled(job, c).None?
  }

  lemma TickedAt(table: map<string, Job>, now: int, id: string, c: Clockwork)
    requires id in table && FiresAtMostOnce(table[id], c)
    ensures var after := Ticked(table, now, c);
      if StillWaits(table[id], now) then id in after && after[id] == table[id] else id !in after
  {
    assert Ticking(now, c)(table[id]) == TickJob(table[id], now, c);
  }

  lemma WaitsOneMore(job: Job, times: seq<int>, n: nat)
    requires n < |times|
    ensures WaitsThrough(job, times, n + 1) <==> WaitsThrough(job, times, n) && StillWaits(job, times[n])
  {
  }

  lemma {:induction false} HeldWhileWaiting(jobs: map<string, Job>, times: seq<int>, n: nat, id: string, c: Clockwork)
    requires id in jobs && FiresAtMostOnce(jobs[id], c) && n <= |times|
    ensures var after := Table(jobs, times[..n], c);
      if WaitsThrough(jobs[id], times, n) then id in after && after[id] == jobs[id] else id !in after
  {
    if n == 0 {
      assert times[..0] == [];
    } else {
      HeldWhileWaiting(jobs, times, n - 1, id, c);
      OneMoreTick(jobs, times, n - 1, c);
      WaitsOneMore(jobs[id], times, n - 1);
      var before := Table(jobs, times[..n - 1], c);
      if id in before {
        TickedAt(before, times[n - 1], id, c);
      }
    }
  }

  /**
   Such a job fires at the first tick that lies at or after its next fire, unless a tick after its expiry comes first,
   and at no other tick. It is in the table, unchanged, until that tick or one after its expiry, and then never again.
   */
  lemma FiresOnceThenGoes(jobs: map<string, Job>, times: seq<int>, i: nat, id: string, c: Clockwork)
    requires id in jobs && FiresAtMostOnce(jobs[id], c) && i < |times|
    ensures FiresIn(jobs, times, i, id, c) <==>
      && WaitsThrough(jobs[id], times, i)
      && (jobs[id].nextFire.Some? ==> jobs[id].nextFire.value <= times[i])
      && (jobs[id].expiresAt.Some? ==> times[i] <= jobs[id].expiresAt.value)
    ensures id in Table(jobs, times, c) <==> WaitsThrough(jobs[id], times, |times|)
    ensures id in Table(jobs, times, c) ==> Table(jobs, times, c)[id] == jobs[id]
    ensures FiresIn(jobs, times, i, id, c) ==>
      forall j :: i < j < |times| ==> id !in Table(jobs, times[..j], c) && !FiresIn(jobs, times, j, id, c)
  {
    assert times[..|times|] == times;
    HeldWhileWaiting(jobs, times, i, id, c);
    HeldWhileWaiting(jobs, times, |times|, id, c);
    if FiresIn(jobs, times, i, id, c) {
      OneMoreTick(jobs, times, i, c);
      forall j | i < j < |times| ensures id !in Table(jobs, times[..j], c) && !FiresIn(jobs, times, j, id, c) {
        OverIsOver(jobs, times, i + 1, j, id, c);
      }
    }
  }

  // ---------------------------------------------------------------------------
  // The end of a recurring job.

  lemma {:induction false} ExpiryStays(jobs: map<string, Job>, times: seq<int>, n: nat, id: string, c: Clockwork)
    requires id in jobs && n <= |times| && id in Table(jobs, times[..n], c)
    ensures Table(jobs, times[..n], c)[id].expiresAt == jobs[id].expiresAt
  {
    if n == 0 {
      assert times[..0] == [];
    } else {
      OneMoreTick(jobs, times, n - 1, c);
      ExpiryStays(jobs, times, n - 1, id, c);
    }
  }

  lemma ExpiredTick(table: map<string, Job>, now: int, id: string, c: Clockwork)
    requires id in table ==> Expired(table[id], now)
    ensures id !in Ticked(table, now, c) && !(id in table && Fires(table[id], now))
  {
    if id in table {
      assert Ticking(now, c)(table[id]) == TickJob(table[id], now, c);
    }
  }

  lemma ExpiredThen(jobs: map<string, Job>, times: seq<int>, i: nat, id: string, c: Clockwork)
    requires id in jobs && jobs[id].expiresAt.Some? && i < |times| && jobs[id].expiresAt.value < times[i]
    ensures !FiresIn(jobs, times, i, id, c) && id !in Table(jobs, times[..i + 1], c)
  {
    var before := Table(jobs, times[..i], c);
    if id in before {
      ExpiryStays(jobs, times, i, id, c);
    }
    OneMoreTick(jobs, times, i, c);
    ExpiredTick(before, times[i], id, c);
  }

  /** From the first tick after its expiry on, a job of any kind is out of the table, and it does not fire there. */
  lemma ExpiredIsOver(jobs: map<string, Job>, times: seq<int>, i: nat, j: nat, id: string, c: Clockwork)
    requires id in jobs && jobs[id].expiresAt.Some? && i <= j < |times| && jobs[id].expiresAt.value < times[i]
    ensures !FiresIn(jobs, times, j, id, c) && id !in Table(jobs, times[..j + 1], c)
  {
    ExpiredThen(jobs, times, i, id, c);
    if i < j {
      OverIsOver(jobs, times, i + 1, j, id, c);
      OverIsOver(jobs, times, i + 1, j + 1, id, c);
    }
  }

  /** A recurring job that is created fires at no tick later than a week after. */
  lemma OneWeekOnly(jobs: map<string, Job>, times: seq<int>, i: nat, held: nat, id: string, cron: string,
                    prompt: string, durable: bool, now: int, c: Clockwork)
    requires i < |times| && id in jobs && NewJob(held, id, cron, prompt, true, durable, now, c) == Some(jobs[id])
    requires times[i] > now + 7 * 24 * 60 * MINUTE
    ensures !FiresIn(jobs, times, i, id, c) && id !in Table(jobs, times[..i + 1], c)
  {
    ExpiredIsOver(jobs, times, i, i, id, c);
  }

  // ---------------------------------------------------------------------------
  // Where such jobs come from: a creation, and a boot.

  /** A prompt set for a delay of up to 365 days is accepted while there is room, and waits for its minute. */
  lemma DelayedPromptIsAccepted(held: nat, id: string, prompt: string, durable: bool, now: int, minutes: int,
                                c: Clockwork)
    requires Genuine(c) && 1 <= minutes <= 365 * 24 * 60 && held < 50
    ensures var due := OneShot.Target(now, minutes);
      var made := NewJob(held, id, OneShot.OnceLine(due), prompt, false, durable, now, c);
      && made.Some? && made.value.nextFire == Some(due * MINUTE) && made.value.expiresAt.None?
      && made.value.id == id && made.value.prompt == prompt && !made.value.recurring
  {
    OneShot.OneShotFires(now, minutes);
    ParsesAndFinds(OneShot.OnceLine(OneShot.Target(now, minutes)), now, c);
  }

  /** And it is reported once, at the first tick at or after that minute, and then gone. */
  lemma DelayedPromptFiresOnce(jobs: map<string, Job>, times: seq<int>, i: nat, held: nat, id: string, prompt: string,
                               durable: bool, now: int, minutes: int, c: Clockwork)
    requires Genuine(c) && 1 <= minutes <= 365 * 24 * 60 && held < 50 && i < |times| && id in jobs
    requires var line := OneShot.OnceLine(OneShot.Target(now, minutes));
      NewJob(held, id, line, prompt, false, durable, now, c) == Some(jobs[id])
    ensures var due := OneShot.Target(now, minutes) * MINUTE;
      && (FiresIn(jobs, times, i, id, c) <==> due <= times[i] && forall k :: 0 <= k < i ==> times[k] < due)
      && (id in Table(jobs, times, c) <==> forall k :: 0 <= k < |times| ==> times[k] < due)
  {
    DelayedPromptIsAccepted(held, id, prompt, durable, now, minutes, c);
    FiresOnceThenGoes(jobs, times, i, id, c);
  }

  lemma ParsesAndFinds(line: string, now: int, c: Clockwork)
    requires Genuine(c) && CronParse.Parsed(line).Some?
    ensures c.parse(line) == CronParse.Parsed(line)
    ensures c.next(CronParse.Parsed(line).value, now) == NextAfter(CronParse.Parsed(line).value, now)
  {
  }

  /** A one-shot adopted at a boot fires once, at the first tick from then on that is not before its minute. */
  lemma MissedOneShotFires(file: map<string, Job>, boot: int, times: seq<int>, i: nat, id: string, c: Clockwork)
    requires id in file && !file[id].recurring && file[id].expiresAt.None? && c.parse(file[id].cron).Some?
    requires i < |times| && (forall k :: 0 <= k < |times| ==> boot <= times[k])
    ensures var jobs := Adoptees(file, boot, c);
      && id in jobs
      && (FiresIn(jobs, times, i, id, c) <==>
           && (file[id].nextFire.Some? ==> file[id].nextFire.value <= times[i])
           && forall k :: 0 <= k < i ==> file[id].nextFire.Some? && times[k] < file[id].nextFire.value)
  {
    var jobs := Adoptees(file, boot, c);
    assert Adopting(boot, c)(file[id]) == Adopted(file[id], boot, c);
    FiresOnceThenGoes(jobs, times, i, id, c);
  }

  /** A recurring job starts at its creation, and starts anew at every boot: fires missed in between are not made up. */
  lemma CreatedStarts(held: nat, id: string, cron: string, prompt: string, durable: bool, now: int, c: Clockwork)
    requires c.parse(cron).Some? && c.next(c.parse(cron).value, now).Some? && held < 50
    ensures var made := NewJob(held, id, cron, prompt, true, durable, now, c);
      var e := c.parse(cron).value;
      made.Some? && Starts(Run(made, c.next(e, now).value, []), e, now, c)
  {
  }

  lemma AdoptedStarts(job: Job, boot: int, c: Clockwork)
    requires job.recurring && c.parse(job.cron).Some?
    ensures var e := c.parse(job.cron).value;
      if (job.expiresAt.Some? && job.expiresAt.value < boot) || c.next(e, boot).None? then Adopted(job, boot, c).None?
      else Starts(Run(Adopted(job, boot, c), c.next(e, boot).value, []), e, boot, c)
  {
  }

  /** The run of a single job, whose charged minutes are counted elsewhere, is what happens to it in the table. */
  lemma {:induction false} RunsInTable(jobs: map<string, Job>, r: Run, e: Expression, times: seq<int>, id: string,
                                       c: Clockwork)
    requires id in jobs && r.job == Some(jobs[id])
    ensures var after := Table(jobs, times, c);
      Ran(r, e, times, c).job == if id in after then Some(after[id]) else None
    ensures forall i :: 0 <= i < |times| ==>
      |Ran(r, e, times[..i + 1], c).charged| ==
      |Ran(r, e, times[..i], c).charged| + if FiresIn(jobs, times, i, id, c) then 1 else 0
    decreases |times|
  {
    if times != [] {
      var n := |times| - 1;
      var before := times[..n];
      RunsInTable(jobs, r, e, before, id, c);
      assert times[..n + 1] == times;
      forall i | 0 <= i < n
        ensures |Ran(r, e, times[..i + 1], c).charged| ==
          |Ran(r, e, times[..i], c).charged| + if FiresIn(jobs, times, i, id, c) then 1 else 0
      {
        assert before[..i] == times[..i] && before[..i + 1] == times[..i + 1];
        assert FiresIn(jobs, before, i, id, c) <==> FiresIn(jobs, times, i, id, c);
      }
    }
  }

  /** The jitter of a recurring fire is below a quarter of an hour and below a tenth of the time to the next match. */
  lemma JitterIsSmall(e: Expression, base: int, id: string, cron: string, c: Clockwork)
    ensures var j := Jitter(e, base, id, cron, c);
      && 0 <= j < 15 * MINUTE
      && (j > 0 ==> c.next(e, base * MINUTE).Some? && 10 * j < (c.next(e, base * MINUTE).value - base) * MINUTE)
  {
    var period := Period(e, base, c);
    if period > 0 && MaxJitter(period) > 0 {
      Remainder(c.hash(id, cron, base), MaxJitter(period));
    }
  }

  /** The jitter is the hash modulo the longest time that is at most a quarter of an hour and a tenth of the period. */
  lemma JitterIs(e: Expression, base: int, id: string, cron: string, m: int, c: Clockwork)
    requires c.next(e, base * MINUTE).Some? && m > 0
    requires var period := (c.next(e, base * MINUTE).value - base) * MINUTE;
      m <= 15 * MINUTE && 10 * m <= period && (m == 15 * MINUTE || period < 10 * (m + 1))
    ensures Jitter(e, base, id, cron, c) == c.hash(id, cron, base) % m
  {
  }

  /** A job is accepted exactly when its line parses, has a match in sight, and there are fewer than 50 jobs. */
  lemma AcceptedIff(held: nat, id: string, cron: string, prompt: string, recurring: bool, durable: bool, now: int,
                    c: Clockwork)
    ensures NewJob(held, id, cron, prompt, recurring, durable, now, c).Some? <==>
      c.parse(cron).Some? && c.next(c.parse(cron).value, now).Some? && held <= 49
  {
  }

  /** How often the job fires over these ticks. */
  function FireCount(jobs: map<string, Job>, times: seq<int>, n: nat, id: string, c: Clockwork): nat
    requires n <= |times|
  {
    if n == 0 then 0
    else FireCount(jobs, times, n - 1, id, c) + if FiresIn(jobs, times, n - 1, id, c) then 1 else 0
  }

  lemma TickCounts(table: map<string, Job>, now: int, id: string, c: Clockwork)
    requires id in Ticked(table, now, c)
    ensures id in table
    ensures Ticked(table, now, c)[id].firedCount == table[id].firedCount + if Fires(table[id], now) then 1 else 0
    ensures Ticked(table, now, c)[id].lastFired == if Fires(table[id], now) then Some(now) else table[id].lastFired
  {
    assert Ticking(now, c)(table[id]) == TickJob(table[id], now, c);
  }

  /** A job in the table has counted its fires and knows the last. */
  lemma {:induction false} FiresAreCounted(jobs: map<string, Job>, times: seq<int>, n: nat, id: string, c: Clockwork)
    requires n <= |times| && id in Table(jobs, times[..n], c)
    ensures id in jobs
    ensures Table(jobs, times[..n], c)[id].firedCount == jobs[id].firedCount + FireCount(jobs, times, n, id, c)
    ensures n > 0 && FiresIn(jobs, times, n - 1, id, c) ==>
      Table(jobs, times[..n], c)[id].lastFired == Some(times[n - 1])
  {
    if n == 0 {
      assert times[..0] == [];
    } else {
      OneMoreTick(jobs, times, n - 1, c);
      TickCounts(Table(jobs, times[..n - 1], c), times[n - 1], id, c);
      FiresAreCounted(jobs, times, n - 1, id, c);
    }
  }

  // ---------------------------------------------------------------------------
  // A job stays the job it was made as.

  /** The same job, but for its schedule and its counts. */
  predicate SameJob(a: Job, b: Job) {
    && a.id == b.id && a.cron == b.cron && a.prompt == b.prompt
    && a.recurring == b.recurring && a.durable == b.durable && a.expiresAt == b.expiresAt
  }

  lemma AcceptedAsGiven(held: nat, id: string, cron: string, prompt: string, recurring: bool, durable: bool, now: int,
                        c: Clockwork)
    requires NewJob(held, id, cron, prompt, recurring, durable, now, c).Some?
    ensures var job := NewJob(held, id, cron, prompt, recurring, durable, now, c).value;
      && SameJob(job, Job(id, cron, prompt, recurring, durable, None,
                          if recurring then Some(now + 7 * 24 * 60 * MINUTE) else None, None, None, 0))
      && job.lastFired.None? && job.firedCount == 0
  {
  }

  /** Adopted from the file, it is durable, and has its counts. */
  lemma AdoptedAsStored(job: Job, boot: int, c: Clockwork)
    requires Adopted(job, boot, c).Some?
    ensures var held := Adopted(job, boot, c).value;
      SameJob(held, job.(durable := true)) && held.lastFired == job.lastFired && held.firedCount == job.firedCount
  {
  }

  lemma {:induction false} SameThroughout(jobs: map<string, Job>, times: seq<int>, n: nat, id: string, c: Clockwork)
    requires n <= |times| && id in Table(jobs, times[..n], c)
    ensures id in jobs && SameJob(Table(jobs, times[..n], c)[id], jobs[id])
  {
    if n == 0 {
      assert times[..0] == [];
    } else {
      OneMoreTick(jobs, times, n - 1, c);
      TickKeepsJob(Table(jobs, times[..n - 1], c), times[n - 1], id, c);
      SameThroughout(jobs, times, n - 1, id, c);
    }
  }

  lemma TickKeepsJob(table: map<string, Job>, now: int, id: string, c: Clockwork)
    requires id in Ticked(table, now, c)
    ensures id in table && SameJob(Ticked(table, now, c)[id], table[id])
  {
    assert Ticking(now, c)(table[id]) == TickJob(table[id], now, c);
  }
}
