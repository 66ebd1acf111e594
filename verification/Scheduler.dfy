/** internal/cron/store.go: the scheduler, with its job table and the file it shares with other instances. */
module Schedulers {
  import opened Wrappers
  import opened CronNext
  import opened CronParse
  import opened SchedulerSpec

  method Compile(line: string, c: Clockwork) returns (e: Option<Expression>)
    requires Genuine(c)
    ensures e == c.parse(line)
  {
    e := Parse(line);
  }

  method Search(e: Expression, after: int, c: Clockwork) returns (r: Option<int>)
    requires Genuine(c)
    ensures r == c.next(e, after)
  {
    r := SearchAfter(e, after);
  }

  ghost predicate IsAdopting(step: Job -> Option<Job>, now: int, c: Clockwork) {
    forall job {:trigger Adopted(job, now, c)} :: step(job) == Adopted(job, now, c)
  }

  ghost predicate IsTicking(step: Job -> Option<Job>, now: int, c: Clockwork) {
    forall job {:trigger TickJob(job, now, c)} :: step(job) == TickJob(job, now, c)
  }

  /** What a tick has decided for one job: it is over, or it goes on as `after`. */
  ghost predicate Outcome(step: Job -> Option<Job>, job: Job, over: bool, after: Job) {
    step(job) == (if over then None else Some(after)) && after.id == job.id
  }

  lemma OutcomesAreKept(before: map<string, Job>, after: map<string, Job>, toDelete: set<string>,
                        step: Job -> Option<Job>)
    requires before.Keys == after.Keys
    requires forall id :: id in before ==> Outcome(step, before[id], id in toDelete, after[id])
    ensures after - toDelete == Kept(before, step)
  {
    forall id ensures id in after - toDelete <==> id in Kept(before, step) {
      if id in before {
        assert Outcome(step, before[id], id in toDelete, after[id]);
      }
    }
    forall id | id in after - toDelete ensures after[id] == Kept(before, step)[id] {
      assert Outcome(step, before[id], id in toDelete, after[id]);
    }
  }

  /** What has been adopted of the file when `todo` is still to be looked at. */
  ghost function AdoptedBut(s: Instance, content: map<string, Job>, todo: set<string>, step: Job -> Option<Job>)
    : Instance
  {
    var kept := Kept(Only(content, content.Keys - todo), step);
    Instance(s.jobs + kept, s.known + kept.Keys)
  }

  lemma OneMoreAdopted(s: Instance, content: map<string, Job>, todo: set<string>, id: string, step: Job -> Option<Job>)
    requires todo <= content.Keys && id in todo
    ensures var before, after := AdoptedBut(s, content, todo, step), AdoptedBut(s, content, todo - {id}, step);
      after == if step(content[id]).None? then before
               else Instance(before.jobs[id := step(content[id]).value], before.known + {id})
  {
    var done := content.Keys - todo;
    assert content.Keys - (todo - {id}) == done + {id};
    KeptGrows(content, done, id, step);
    var kept := Kept(Only(content, done), step);
    if step(content[id]).Some? {
      OneMoreKept(s, kept, id, step(content[id]).value);
    }
  }

  lemma NoneAdopted(s: Instance, content: map<string, Job>, step: Job -> Option<Job>)
    ensures AdoptedBut(s, content, content.Keys, step) == s
  {
    assert Kept(Only(content, content.Keys - content.Keys), step) == map[];
  }

  lemma AllAdopted(s: Instance, content: map<string, Job>, step: Job -> Option<Job>)
    ensures AdoptedBut(s, content, {}, step)
         == Instance(s.jobs + Kept(content, step), s.known + Kept(content, step).Keys)
  {
    assert Only(content, content.Keys - {}) == content;
  }

  lemma OneMoreKept(s: Instance, kept: map<string, Job>, id: string, job: Job)
    ensures (s.jobs + kept)[id := job] == s.jobs + kept[id := job]
    ensures s.known + kept.Keys + {id} == s.known + kept[id := job].Keys
  {
  }

  class StorageFile {
    var content: map<string, Job>

    constructor ()
      ensures content == map[]
    {
      content := map[];
    }
  }

  datatype FiredJob = FiredJob(id: string, prompt: string)

  class Scheduler {
    var jobs: map<string, Job>
    var knownDurable: set<string>
    const file: StorageFile?   // null when no storage path is set

    constructor (file: StorageFile?)
      ensures Valid() && State() == Instance(map[], {}) && this.file == file
    {
      jobs, knownDurable := map[], {};
      this.file := file;
    }

    ghost predicate Valid()
      reads this`jobs
    {
      forall id :: id in jobs ==> jobs[id].id == id
    }

    ghost function State(): Instance
      reads this`jobs, this`knownDurable
    {
      Instance(jobs, knownDurable)
    }

    method SaveDurable(io: Access)
      modifies this`knownDurable, file
      ensures file == null ==> State() == old(State())
      ensures file != null ==>
        State() == Saving(old(State())) && file.content == SavedFile(old(State()), old(file.content), io)
    {
      if file == null {
        return;
      }
      var durable := Durables(jobs);
      knownDurable := knownDurable + durable.Keys;
      var foreign := ForeignDurable(io);
      if io.canWrite {
        file.content := foreign + durable;
      }
    }

    method ForeignDurable(io: Access) returns (foreign: map<string, Job>)
      requires file != null
      ensures foreign == if io.canRead then file.content - knownDurable else map[]
    {
      if !io.canRead {
        return map[];
      }
      foreign := file.content - knownDurable;
    }

    method Create(cron: string, prompt: string, recurring: bool, durable: bool, now: int, id: string, c: Clockwork,
                  io: Access)
      returns (r: Option<Job>)
      requires Valid() && Genuine(c)
      modifies this, file
      ensures Valid()
      ensures r == NewJob(|old(jobs)|, id, cron, prompt, recurring, durable, now, c)
      ensures jobs == if r.None? then old(jobs) else old(jobs)[id := r.value]
      ensures var s := Instance(jobs, old(knownDurable));
        if r.Some? && durable && file != null then
          State() == Saving(s) && file.content == SavedFile(s, old(file.content), io)
        else State() == s && (file != null ==> file.content == old(file.content))
    {
      r := MakeJob(|jobs|, id, cron, prompt, recurring, durable, now, c);
      if r.None? {
        return;
      }
      jobs := jobs[id := r.value];
      if durable {
        SaveDurable(io);
      }
    }

    static method MakeJob(held: nat, id: string, cron: string, prompt: string, recurring: bool, durable: bool,
                          now: int, c: Clockwork)
      returns (r: Option<Job>)
      requires Genuine(c)
      ensures r == NewJob(held, id, cron, prompt, recurring, durable, now, c)
    {
      var e := Compile(cron, c);
      if e.None? {
        return None;
      }
      if held >= MAX_JOBS {
        return None;
      }
      var expiresAt := if recurring then Some(now + WEEK) else None;
      var next := NextFire(e.value, now, id, cron, recurring, c);
      if next.None? {
        return None;
      }
      r := Some(Job(id, cron, prompt, recurring, durable, e, expiresAt, next, None, 0));
    }

    static method NextFire(e: Expression, from: int, id: string, cron: string, recurring: bool, c: Clockwork)
      returns (r: Option<int>)
      requires Genuine(c)
      ensures r == ComputeNextFire(e, from, id, cron, recurring, c)
    {
      var base := Search(e, from, c);
      if base.None? {
        return None;
      }
      if !recurring {
        return Some(base.value * MINUTE);
      }
      var jitter := RecurringJitter(e, base.value, id, cron, c);
      return Some(base.value * MINUTE + jitter);
    }

    static method RecurringJitter(e: Expression, base: int, id: string, cron: string, c: Clockwork)
      returns (jitter: int)
      requires Genuine(c)
      ensures jitter == Jitter(e, base, id, cron, c)
    {
      var next := Search(e, base * MINUTE, c);
      if next.None? {
        return 0;
      }
      var period := (next.value - base) * MINUTE;
      if period <= 0 {
        return 0;
      }
      var maxJitter := period / 10;
      if maxJitter > QUARTER {
        maxJitter := QUARTER;
      }
      if maxJitter <= 0 {
        return 0;
      }
      jitter := c.hash(id, cron, base) % maxJitter;
    }

    method Remove(id: string, io: Access) returns (found: bool)
      requires Valid()
      modifies this, file
      ensures Valid() && found == (id in old(jobs)) && jobs == old(jobs) - {id}
      ensures var s := Instance(jobs, old(knownDurable));
        if found && old(jobs)[id].durable && file != null then
          State() == Saving(s) && file.content == SavedFile(s, old(file.content), io)
        else State() == s && (file != null ==> file.content == old(file.content))
    {
      if id !in jobs {
        return false;
      }
      var wasDurable := jobs[id].durable;
      jobs := jobs - {id};
      if wasDurable {
        SaveDurable(io);
      }
      return true;
    }

    method Reset(io: Access)
      modifies this, file
      ensures Valid() && State() == Instance(map[], old(knownDurable))
      ensures file != null ==> file.content == SavedFile(State(), old(file.content), io)
    {
      jobs := map[];
      SaveDurable(io);
    }

    method LoadDurable(now: int, c: Clockwork, io: Access) returns (ok: bool)
      requires Valid() && Genuine(c) && (file != null ==> forall id :: id in file.content ==> file.content[id].id == id)
      modifies this
      ensures Valid()
      ensures ok == (file == null || io.canRead)
      ensures State() == if file == null then old(State()) else Booted(old(State()), file.content, io, now, c)
    {
      if file == null {
        return true;
      }
      if !io.canRead {
        return false;
      }
      AdoptAll(file.content, now, c, Adopting(now, c));
      return true;
    }

    method AdoptAll(content: map<string, Job>, now: int, c: Clockwork, ghost step: Job -> Option<Job>)
      requires Valid() && Genuine(c) && (forall id :: id in content ==> content[id].id == id) &&
        IsAdopting(step, now, c)
      modifies this
      ensures Valid()
      ensures State() == Instance(old(jobs) + Kept(content, step), old(knownDurable) + Kept(content, step).Keys)
    {
      ghost var s := State();
      NoneAdopted(s, content, step);
      var todo := content.Keys;
      while todo != {}
        invariant todo <= content.Keys && Valid()
        invariant State() == AdoptedBut(s, content, todo, step)
        decreases todo
      {
        var id :| id in todo;
        OneMoreAdopted(s, content, todo, id, step);
        var job := Adopt(content[id], now, c, step);
        if job.Some? {
          jobs := jobs[id := job.value];
          knownDurable := knownDurable + {id};
        }
        todo := todo - {id};
      }
      AllAdopted(s, content, step);
    }

    static method Adopt(job: Job, now: int, c: Clockwork, ghost step: Job -> Option<Job>) returns (r: Option<Job>)
      requires Genuine(c) && IsAdopting(step, now, c)
      ensures r == step(job) && (r.Some? ==> r.value.id == job.id)
    {
      ghost var adopted := Adopted(job, now, c);
      if job.expiresAt.Some? && now > job.expiresAt.value {
        return None;
      }
      var e := Compile(job.cron, c);
      if e.None? {
        return None;
      }
      var next := job.nextFire;
      if job.recurring {
        next := NextFire(e.value, now, job.id, job.cron, true, c);
        if next.None? {
          return None;
        }
      } else if next.None? || next.value <= now {
        next := Some(now);
      }
      r := Some(job.(expr := e, nextFire := next, durable := true));
    }

    method Tick(now: int, c: Clockwork, io: Access) returns (fired: seq<FiredJob>)
      requires Valid() && Genuine(c)
      modifies this, file
      ensures Valid() && jobs == Ticked(old(jobs), now, c)
      ensures FiresExactly(fired, old(jobs), old(jobs).Keys, now)
      ensures var s := Instance(jobs, old(knownDurable));
        if file != null && TouchesDurable(old(jobs), old(jobs).Keys, now) then
          State() == Saving(s) && file.content == SavedFile(s, old(file.content), io)
        else State() == s && (file != null ==> file.content == old(file.content))
    {
      var changed;
      fired, changed := TickAll(now, c, Ticking(now, c));
      if changed {
        SaveDurable(io);
      }
    }

    method TickAll(now: int, c: Clockwork, ghost step: Job -> Option<Job>) returns (fired: seq<FiredJob>, changed: bool)
      requires Valid() && Genuine(c) && IsTicking(step, now, c)
      modifies this`jobs
      ensures Valid() && jobs == Kept(old(jobs), step)
      ensures FiresExactly(fired, old(jobs), old(jobs).Keys, now) &&
        changed == TouchesDurable(old(jobs), old(jobs).Keys, now)
    {
      ghost var before := jobs;
      ghost var done: set<string> := {};
      var todo, toDelete := jobs.Keys, {};
      fired, changed := [], false;
      while todo != {}
        invariant todo !! done && todo + done == before.Keys && jobs.Keys == before.Keys && toDelete <= done && Valid()
        invariant forall id :: id in todo ==> jobs[id] == before[id]
        invariant forall id :: id in done ==> Outcome(step, before[id], id in toDelete, jobs[id])
        invariant done <= before.Keys && FiresExactly(fired, before, done, now)
        invariant changed == TouchesDurable(before, done, now)
        decreases todo
      {
        var id :| id in todo;
        FiresOneMore(fired, before, done, id, now);
        var job := jobs[id];
        var over, after, fires := TickOne(job, now, c, step);
        if fires {
          fired := fired + [FiredJob(job.id, job.prompt)];
        }
        changed := changed || (job.durable && (over || fires));
        if over {
          toDelete := toDelete + {id};
        } else {
          jobs := jobs[id := after];
        }
        todo := todo - {id};
        done := done + {id};
      }
      OutcomesAreKept(before, jobs, toDelete, step);
      jobs := jobs - toDelete;
    }

    static method TickOne(job: Job, now: int, c: Clockwork, ghost step: Job -> Option<Job>)
      returns (over: bool, after: Job, fires: bool)
      requires Genuine(c) && IsTicking(step, now, c)
      ensures step(job) == (if over then None else Some(after)) && after.id == job.id
      ensures fires == Fires(job, now)
      ensures over || fires <==> Expired(job, now) || Due(job, now)
    {
      ghost var ticked := TickJob(job, now, c);
      after := job;
      if job.expiresAt.Some? && now > job.expiresAt.value {
        return true, after, false;
      }
      if job.nextFire.Some? && now < job.nextFire.value {
        return false, after, false;
      }
      fires := true;
      after := after.(lastFired := Some(now), firedCount := job.firedCount + 1);
      if !job.recurring {
        return true, after, fires;
      }
      if job.expr.None? {
        var e := Compile(job.cron, c);
        if e.None? {
          return true, after, fires;
        }
        after := after.(expr := e);
      }
      var next := NextFire(after.expr.value, now, job.id, job.cron, true, c);
      over, after := false, after.(nextFire := next);
    }
  }

  predicate Once(fired: seq<FiredJob>) {
    forall i, j :: 0 <= i < j < |fired| ==> fired[i].id != fired[j].id
  }

  /** Of these jobs, those that fire are reported once each, and no others. */
  ghost predicate FiresExactly(fired: seq<FiredJob>, jobs: map<string, Job>, ids: set<string>, now: int)
    requires ids <= jobs.Keys
  {
    && Once(fired)
    && (forall f :: f in fired ==> f.id in ids && Fires(jobs[f.id], now) && f.prompt == jobs[f.id].prompt)
    && (forall id :: id in ids && Fires(jobs[id], now) ==> FiredJob(id, jobs[id].prompt) in fired)
  }

  lemma FiresOneMore(fired: seq<FiredJob>, jobs: map<string, Job>, ids: set<string>, id: string, now: int)
    requires ids <= jobs.Keys && id in jobs && id !in ids && FiresExactly(fired, jobs, ids, now)
    ensures var longer := if Fires(jobs[id], now) then fired + [FiredJob(id, jobs[id].prompt)] else fired;
      FiresExactly(longer, jobs, ids + {id}, now)
    ensures TouchesDurable(jobs, ids + {id}, now) <==> TouchesDurable(jobs, ids, now) || Touched(jobs[id], now)
  {
    if TouchesDurable(jobs, ids, now) {
      var k :| k in ids && Touched(jobs[k], now);
      assert k in ids + {id};
    }
    assert id in ids + {id};
  }
}
