/**
 internal/cron/store.go, saveDurableLocked: what the shared file holds of a job. Another instance's jobs are carried
 over as they are, and a creator's own are written as it holds them.
 */
module StoredJobs {
  import opened SchedulerSpec
  import opened SharedStore

  /** After any action, a job on file is as its writer held it, or as it was on file before. */
  lemma WrittenOrCarriedOver(w: World, a: Action, id: string, c: Clockwork)
    requires id in Act(w, a, c).file
    ensures if Places(w, a, id, c) then
              Act(w, a, c).file[id] == Operated(w.instances[a.who], a.op, w.file, a.io, c).jobs[id]
            else id in w.file && Act(w, a, c).file[id] == w.file[id]
  {
    if a.who < |w.instances| {
      var s := w.instances[a.who];
      var t := Operated(s, a.op, w.file, a.io, c);
      assert id in Durables(t.jobs) <==> Holds(t, id);
    }
  }

  /** The creator holds the job, and the file has it as the creator does. */
  ghost predicate Current(w: World, who: nat, id: string) {
    SharedStore.Kept(w, who, id) && w.file[id] == w.instances[who].jobs[id]
  }

  /** A tick that does not save leaves a durable job as it was. */
  lemma UnsavedTickChangesNothing(s: Instance, id: string, now: int, c: Clockwork)
    requires Holds(s, id) && !Saves(s, Tick(now))
    ensures id in Ticked(s.jobs, now, c) && Ticked(s.jobs, now, c)[id] == s.jobs[id]
  {
    assert !Touched(s.jobs[id], now);
    assert Ticking(now, c)(s.jobs[id]) == TickJob(s.jobs[id], now, c);
  }

  lemma OwnActionStaysCurrent(w: World, a: Action, who: nat, id: string, c: Clockwork)
    requires Current(w, who, id) && a.who == who && Unique(a, id) && a.io.canWrite && !a.op.LoadDurable?
    requires id in Act(w, a, c).instances[who].jobs && id in Act(w, a, c).file
    ensures Act(w, a, c).file[id] == Act(w, a, c).instances[who].jobs[id]
  {
    WrittenOrCarriedOver(w, a, id, c);
    var s := w.instances[who];
    CreatorStaysDurable(s, a.op, w.file, a.io, id, c);
    if a.op.Tick? && !Saves(s, a.op) {
      UnsavedTickChangesNothing(s, id, a.op.now, c);
    }
  }

  lemma OtherActionStaysCurrent(w: World, a: Action, who: nat, id: string, c: Clockwork)
    requires Current(w, who, id) && a.who != who && LeavesAlone(w, a, who, id, c) && id in Act(w, a, c).file
    ensures Act(w, a, c).instances[who] == w.instances[who] && Act(w, a, c).file[id] == w.file[id]
  {
    WrittenOrCarriedOver(w, a, id, c);
    if a.who < |w.instances| {
      OtherNeverTakesUp(w, a, id, c);
    }
  }

  /** One action of a run in which others read before they write and the creator can write and does not boot again. */
  lemma ActionStaysCurrent(w: World, a: Action, who: nat, id: string, c: Clockwork)
    requires Current(w, who, id) && LeavesAlone(w, a, who, id, c) && Sound(a, who)
    requires a.who == who ==> !a.op.LoadDurable?
    ensures Current(Act(w, a, c), who, id) || Gone(Act(w, a, c), who, id)
  {
    ActionKeepsTrack(w, a, who, id, c);
    if SharedStore.Kept(Act(w, a, c), who, id) {
      if a.who == who {
        OwnActionStaysCurrent(w, a, who, id, c);
      } else {
        OtherActionStaysCurrent(w, a, who, id, c);
      }
    }
  }

  ghost predicate NoSecondBoot(actions: seq<Action>, who: nat) {
    forall i :: 0 <= i < |actions| && actions[i].who == who ==> !actions[i].op.LoadDurable?
  }

  /** The actions of a run are sound and leave the job alone, as far as they are counted here. */
  lemma RunStaysCurrent(w: World, actions: seq<Action>, n: nat, who: nat, id: string, c: Clockwork)
    requires Undisturbed(w, actions, who, id, c) && n < |actions| && Sound(actions[n], who)
    requires actions[n].who == who ==> !actions[n].op.LoadDurable?
    requires var t := After(w, actions[..n], c); Current(t, who, id) || Gone(t, who, id)
    ensures var t := After(w, actions[..n + 1], c); Current(t, who, id) || Gone(t, who, id)
  {
    var t := After(w, actions[..n], c);
    ActionAt(w, actions, n, c);
    if Current(t, who, id) {
      ActionStaysCurrent(t, actions[n], who, id, c);
    } else {
      GoneStaysGone(t, actions[n], who, id, c);
    }
  }

  /**
   Over any such interleaving of any number of instances, the file has the job exactly as its creator holds it, down to
   its last fire, its next fire and its count, until the creator gives it up.
   */
  lemma {:induction false} FileIsCurrent(w: World, actions: seq<Action>, n: nat, who: nat, id: string, c: Clockwork)
    requires Current(w, who, id) && Undisturbed(w, actions, who, id, c) && NoSecondBoot(actions, who)
    requires n <= |actions| && forall i :: 0 <= i < |actions| ==> Sound(actions[i], who)
    ensures var t := After(w, actions[..n], c); Current(t, who, id) || Gone(t, who, id)
  {
    if n == 0 {
      assert actions[..0] == [];
    } else {
      FileIsCurrent(w, actions, n - 1, who, id, c);
      RunStaysCurrent(w, actions, n - 1, who, id, c);
    }
  }

  /** A creation with a writable file is where this begins. */
  lemma CreateIsCurrent(w: World, who: nat, job: Job, io: Access, c: Clockwork)
    requires who < |w.instances| && job.durable && io.canWrite
    requires forall k :: 0 <= k < |w.instances| ==> NeverHeld(w.instances[k], job.id)
    ensures Current(Act(w, Action(who, Create(job), io), c), who, job.id)
  {
    CreateIsKept(w, who, job, io, c);
  }
}
