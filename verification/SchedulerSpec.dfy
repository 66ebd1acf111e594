/** internal/cron/store.go: what one scheduler holds, and what each operation makes of it and of the shared file. */
module SchedulerSpec {
  import opened Wrappers
  import opened CronNext
  import opened CronParse

  /** Instants are in nanoseconds; a zero time is None. */
  datatype Job = Job(
    id: string,
    cron: string,
    prompt: string,
    recurring: bool,
    durable: bool,
    expr: Option<Expression>,
    expiresAt: Option<int>,
    nextFire: Option<int>,
    lastFired: Option<int>,
    firedCount: nat)

  /**
   What a scheduler relies on: the parser, the search, and the 64-bit hash of a job id, its line and a base minute.
   */
  datatype Clockwork = Clockwork(
    parse: string -> Option<Expression>,
    next: (Expression, int) -> Option<int>,
    hash: (string, string, int) -> nat)

  /** The parser and the search are those of the cron package. */
  ghost predicate Genuine(c: Clockwork) {
    && (forall line {:trigger Parsed(line)} :: c.parse(line) == Parsed(line))
    && (forall e, after {:trigger NextAfter(e, after)} :: c.next(e, after) == NextAfter(e, after))
  }

  lemma TheRealOne(hash: (string, string, int) -> nat)
    ensures Genuine(Clockwork(Parsed, NextAfter, hash))
  {
  }

  const QUARTER: int := 15 * MINUTE
  const WEEK: int := 7 * 24 * 60 * MINUTE
  const MAX_JOBS := 50

  // ---------------------------------------------------------------------------
  // The next fire.

  /** The time to the match after `base`, or 0 when there is none. */
  function Period(e: Expression, base: int, c: Clockwork): int {
    match c.next(e, base * MINUTE)
    case None => 0
    case Some(n) => (n - base) * MINUTE
  }

  function MaxJitter(period: int): int {
    if period / 10 > QUARTER then QUARTER else period / 10
  }

  function Jitter(e: Expression, base: int, id: string, cron: string, c: Clockwork): int {
    var period := Period(e, base, c);
    if period <= 0 || MaxJitter(period) <= 0 then 0 else c.hash(id, cron, base) % MaxJitter(period)
  }

  function ComputeNextFire(e: Expression, from: int, id: string, cron: string, recurring: bool, c: Clockwork)
    : Option<int>
  {
    match c.next(e, from)
    case None => None
    case Some(base) => Some(base * MINUTE + if recurring then Jitter(e, base, id, cron, c) else 0)
  }

  // ---------------------------------------------------------------------------
  // One job at one tick.

  predicate Expired(job: Job, now: int) {
    job.expiresAt.Some? && now > job.expiresAt.value
  }

  /** A zero NextFire lies before every instant: such a job is always due. */
  predicate Due(job: Job, now: int) {
    job.nextFire.None? || now >= job.nextFire.value
  }

  predicate Fires(job: Job, now: int) {
    !Expired(job, now) && Due(job, now)
  }

  function Compiled(job: Job, c: Clockwork): Option<Expression> {
    if job.expr.Some? then job.expr else c.parse(job.cron)
  }

  /** The job after a tick, or nothing if it is over. */
  function TickJob(job: Job, now: int, c: Clockwork): Option<Job> {
    if Expired(job, now) then None
    else if !Due(job, now) then Some(job)
    else if !job.recurring || Compiled(job, c).None? then None
    else
      var e := Compiled(job, c).value;
      Some(job.(
        lastFired := Some(now), firedCount := job.firedCount + 1, expr := Some(e),
        nextFire := ComputeNextFire(e, now, job.id, job.cron, true, c)))
  }

  /** The jobs a step keeps, as it leaves them. */
  function Kept(jobs: map<string, Job>, step: Job -> Option<Job>): map<string, Job> {
    map id | id in jobs && step(jobs[id]).Some? :: step(jobs[id]).value
  }

  function Only(jobs: map<string, Job>, ids: set<string>): map<string, Job> {
    map id | id in jobs && id in ids :: jobs[id]
  }

  lemma KeptGrows(jobs: map<string, Job>, ids: set<string>, id: string, step: Job -> Option<Job>)
    requires id in jobs && id !in ids
    ensures var before, after := Kept(Only(jobs, ids), step), Kept(Only(jobs, ids + {id}), step);
      after == if step(jobs[id]).Some? then before[id := step(jobs[id]).value] else before
  {
    var before, after := Only(jobs, ids), Only(jobs, ids + {id});
    assert forall k :: k in after <==> k in before || k == id;
    assert forall k :: k in before ==> after[k] == before[k];
  }

  function Ticking(now: int, c: Clockwork): Job -> Option<Job> {
    (job: Job) => TickJob(job, now, c)
  }

  function Ticked(jobs: map<string, Job>, now: int, c: Clockwork): map<string, Job> {
    Kept(jobs, Ticking(now, c))
  }

  predicate Touched(job: Job, now: int) {
    job.durable && (Expired(job, now) || Due(job, now))
  }

  predicate TouchesDurable(jobs: map<string, Job>, ids: set<string>, now: int)
    requires ids <= jobs.Keys
  {
    exists id :: id in ids && Touched(jobs[id], now)
  }

  // ---------------------------------------------------------------------------
  // The file.

  datatype Instance = Instance(jobs: map<string, Job>, known: set<string>)

  /** Whether the file can be read and parsed, and whether it can be written. */
  datatype Access = Access(canRead: bool, canWrite: bool)

  function Durables(jobs: map<string, Job>): map<string, Job> {
    map id | id in jobs && jobs[id].durable :: jobs[id]
  }

  function Saving(s: Instance): Instance {
    s.(known := s.known + Durables(s.jobs).Keys)
  }

  /** The file after a save: this instance's durable jobs, and those on file it has never held. */
  function SavedFile(s: Instance, file: map<string, Job>, io: Access): map<string, Job> {
    if !io.canWrite then file
    else (if io.canRead then file - Saving(s).known else map[]) + Durables(s.jobs)
  }

  /** A job read at boot; one-shots that were missed are due at once. */
  function Adopted(job: Job, now: int, c: Clockwork): Option<Job> {
    if Expired(job, now) || c.parse(job.cron).None? then None
    else
      var e := c.parse(job.cron).value;
      var next := if job.recurring then ComputeNextFire(e, now, job.id, job.cron, true, c)
                  else if job.nextFire.None? || job.nextFire.value <= now then Some(now)
                  else job.nextFire;
      if job.recurring && next.None? then None else Some(job.(expr := Some(e), nextFire := next, durable := true))
  }

  function Adopting(now: int, c: Clockwork): Job -> Option<Job> {
    (job: Job) => Adopted(job, now, c)
  }

  function Adoptees(file: map<string, Job>, now: int, c: Clockwork): map<string, Job> {
    Kept(file, Adopting(now, c))
  }

  function Booted(s: Instance, file: map<string, Job>, io: Access, now: int, c: Clockwork): Instance {
    if !io.canRead then s
    else Instance(s.jobs + Adoptees(file, now, c), s.known + Adoptees(file, now, c).Keys)
  }

  /** A new job, if its cron line parses, there is room, and it has a fire to wait for. */
  function NewJob(held: nat, id: string, cron: string, prompt: string, recurring: bool, durable: bool, now: int,
                  c: Clockwork)
    : Option<Job>
  {
    match c.parse(cron)
    case None => None
    case Some(e) =>
      var next := ComputeNextFire(e, now, id, cron, recurring, c);
      if held >= MAX_JOBS || next.None? then None
      else
        var expiresAt := if recurring then Some(now + WEEK) else None;
        Some(Job(id, cron, prompt, recurring, durable, Some(e), expiresAt, next, None, 0))
  }
}
