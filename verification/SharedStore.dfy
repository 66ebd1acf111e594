/** Several scheduler instances that share one file of durable jobs, each operation and its save being one step. */
module SharedStore {
  import opened SchedulerSpec

  datatype World = World(instances: seq<Instance>, file: map<string, Job>)

  datatype Operation =
    | Create(job: Job)                 // a job that NewJob accepted
    | Remove(id: string)
    | Reset
    | Tick(now: int)
    | LoadDurable(now: int)

  /** Which instance acts, and whether it can read and write the file while it does. */
  datatype Action = Action(who: nat, op: Operation, io: Access)

  /** What an operation leaves an instance with, before it saves. */
  function Operated(s: Instance, op: Operation, file: map<string, Job>, io: Access, c: Clockwork): Instance {
    match op
    case Create(job) => s.(jobs := s.jobs[job.id := job])
    case Remove(id) => s.(jobs := s.jobs - {id})
    case Reset => s.(jobs := map[])
    case Tick(now) => s.(jobs := Ticked(s.jobs, now, c))
    case LoadDurable(now) => Booted(s, file, io, now, c)
  }

  /** Whether the operation ends with a save. */
  predicate Saves(s: Instance, op: Operation) {
    match op
    case Create(job) => job.durable
    case Remove(id) => Holds(s, id)
    case Reset => true
    case Tick(now) => TouchesDurable(s.jobs, s.jobs.Keys, now)
    case LoadDurable(_) => false
  }

  predicate Holds(s: Instance, id: string) {
    id in s.jobs && s.jobs[id].durable
  }

  function Act(w: World, a: Action, c: Clockwork): World {
    if a.who >= |w.instances| then w
    else
      var s := w.instances[a.who];
      var t := Operated(s, a.op, w.file, a.io, c);
      if Saves(s, a.op) then World(w.instances[a.who := Saving(t)], SavedFile(t, w.file, a.io))
      else w.(instances := w.instances[a.who := t])
  }

  function After(w: World, actions: seq<Action>, c: Clockwork): World
    decreases |actions|
  {
    if actions == [] then w else Act(After(w, actions[..|actions| - 1], c), actions[|actions| - 1], c)
  }

  /** The action writes the file. */
  predicate Writes(w: World, a: Action) {
    a.who < |w.instances| && Saves(w.instances[a.who], a.op) && a.io.canWrite
  }

  // ---------------------------------------------------------------------------
  // Any job, any instances, any actions: when a job is on file.

  /** The action writes the job to the file: its actor holds it. */
  predicate Places(w: World, a: Action, id: string, c: Clockwork) {
    Writes(w, a) && Holds(Operated(w.instances[a.who], a.op, w.file, a.io, c), id)
  }

  /** The action writes the file without the job: its actor does not hold it, and did once or could not read it. */
  predicate Clears(w: World, a: Action, id: string, c: Clockwork) {
    && Writes(w, a) && !Holds(Operated(w.instances[a.who], a.op, w.file, a.io, c), id)
    && (!a.io.canRead || id in w.instances[a.who].known)
  }

  lemma OneAction(w: World, a: Action, id: string, c: Clockwork)
    ensures id in Act(w, a, c).file <==> Places(w, a, id, c) || (id in w.file && !Clears(w, a, id, c))
  {
    if a.who < |w.instances| {
      var s := w.instances[a.who];
      var t := Operated(s, a.op, w.file, a.io, c);
      assert id in Durables(t.jobs) <==> Holds(t, id);
      assert Saves(s, a.op) ==> t.known == s.known;
    }
  }

  ghost predicate PlacesAt(w: World, actions: seq<Action>, i: nat, id: string, c: Clockwork)
    requires i < |actions|
  {
    Places(After(w, actions[..i], c), actions[i], id, c)
  }

  ghost predicate ClearsAt(w: World, actions: seq<Action>, i: nat, id: string, c: Clockwork)
    requires i < |actions|
  {
    Clears(After(w, actions[..i], c), actions[i], id, c)
  }

  /** The job gets on the file with action `first - 1`, or is there from the start, and none up to `n` clears it. */
  ghost predicate OnFileSince(w: World, actions: seq<Action>, first: nat, n: nat, id: string, c: Clockwork)
    requires first <= n <= |actions|
  {
    && (if first == 0 then id in w.file else PlacesAt(w, actions, first - 1, id, c))
    && forall i :: first <= i < n ==> !ClearsAt(w, actions, i, id, c)
  }

  lemma ActionAt(w: World, actions: seq<Action>, n: nat, c: Clockwork)
    requires n < |actions|
    ensures After(w, actions[..n + 1], c) == Act(After(w, actions[..n], c), actions[n], c)
  {
    assert actions[..n + 1][..n] == actions[..n];
  }

  lemma FileAt(w: World, actions: seq<Action>, n: nat, id: string, c: Clockwork)
    requires n < |actions|
    ensures id in After(w, actions[..n + 1], c).file <==>
      PlacesAt(w, actions, n, id, c) || (id in After(w, actions[..n], c).file && !ClearsAt(w, actions, n, id, c))
  {
    ActionAt(w, actions, n, c);
    OneAction(After(w, actions[..n], c), actions[n], id, c);
  }

  // A flag that is put on and off: it is on exactly when, since it last came on, it was not put off.

  ghost predicate Latches(on: nat -> bool, placed: nat -> bool, cleared: nat -> bool, n: nat) {
    forall k: nat {:trigger placed(k)} :: k < n ==> (on(k + 1) <==> placed(k) || (on(k) && !cleared(k)))
  }

  ghost predicate OnSince(on: nat -> bool, placed: nat -> bool, cleared: nat -> bool, first: nat, n: nat) {
    && first <= n && (if first == 0 then on(0) else placed(first - 1))
    && forall i :: first <= i < n ==> !cleared(i)
  }

  lemma {:induction false} Latched(on: nat -> bool, placed: nat -> bool, cleared: nat -> bool, n: nat)
    returns (first: nat)
    requires Latches(on, placed, cleared, n) && on(n)
    ensures OnSince(on, placed, cleared, first, n)
  {
    first := n;
    if n > 0 && !placed(n - 1) {
      first := Latched(on, placed, cleared, n - 1);
    }
  }

  lemma {:induction false} StaysOn(on: nat -> bool, placed: nat -> bool, cleared: nat -> bool, first: nat, n: nat)
    requires Latches(on, placed, cleared, n) && OnSince(on, placed, cleared, first, n)
    ensures on(n)
  {
    if first < n {
      StaysOn(on, placed, cleared, first, n - 1);
      assert on(n) <==> placed(n - 1) || (on(n - 1) && !cleared(n - 1));
    } else if n > 0 {
      assert placed(n - 1);
    }
  }

  // Of a run, the three flags by the number of actions.

  ghost function OnFile(w: World, actions: seq<Action>, id: string, c: Clockwork): nat -> bool {
    (k: nat) => k <= |actions| && id in After(w, actions[..k], c).file
  }

  ghost function Placed(w: World, actions: seq<Action>, id: string, c: Clockwork): nat -> bool {
    (k: nat) => k < |actions| && PlacesAt(w, actions, k, id, c)
  }

  ghost function Cleared(w: World, actions: seq<Action>, id: string, c: Clockwork): nat -> bool {
    (k: nat) => k < |actions| && ClearsAt(w, actions, k, id, c)
  }

  lemma FlagsAt(w: World, actions: seq<Action>, n: nat, id: string, c: Clockwork)
    requires n < |actions|
    ensures OnFile(w, actions, id, c)(n + 1) <==>
      Placed(w, actions, id, c)(n) || (OnFile(w, actions, id, c)(n) && !Cleared(w, actions, id, c)(n))
  {
    FileAt(w, actions, n, id, c);
  }

  lemma FileLatches(w: World, actions: seq<Action>, id: string, c: Clockwork)
    ensures Latches(OnFile(w, actions, id, c), Placed(w, actions, id, c), Cleared(w, actions, id, c), |actions|)
  {
    forall k: nat | k < |actions|
      ensures OnFile(w, actions, id, c)(k + 1) <==>
        Placed(w, actions, id, c)(k) || (OnFile(w, actions, id, c)(k) && !Cleared(w, actions, id, c)(k))
    {
      FlagsAt(w, actions, k, id, c);
    }
  }

  lemma SinceIs(w: World, actions: seq<Action>, first: nat, id: string, c: Clockwork)
    requires first <= |actions|
    ensures OnFileSince(w, actions, first, |actions|, id, c) <==>
      OnSince(OnFile(w, actions, id, c), Placed(w, actions, id, c), Cleared(w, actions, id, c), first, |actions|)
  {
    assert actions[..0] == [];
    var cleared := Cleared(w, actions, id, c);
    assert forall i :: first <= i < |actions| ==> (cleared(i) <==> ClearsAt(w, actions, i, id, c));
  }

  /**
   Whatever any instances do, however the file fails, adopted or not: a job is on file at the end exactly when some
   save by a holder put it there, or it was there before, and no later save by a non-holder cleared it.
   */
  lemma OnFileIff(w: World, actions: seq<Action>, id: string, c: Clockwork)
    ensures id in After(w, actions, c).file <==>
      exists first :: 0 <= first <= |actions| && OnFileSince(w, actions, first, |actions|, id, c)
  {
    var on, placed, cleared := OnFile(w, actions, id, c), Placed(w, actions, id, c), Cleared(w, actions, id, c);
    FileLatches(w, actions, id, c);
    assert actions[..|actions|] == actions;
    if on(|actions|) {
      var first := Latched(on, placed, cleared, |actions|);
      SinceIs(w, actions, first, id, c);
    }
    if first :| 0 <= first <= |actions| && OnFileSince(w, actions, first, |actions|, id, c) {
      SinceIs(w, actions, first, id, c);
      StaysOn(on, placed, cleared, first, |actions|);
    }
  }

  // ---------------------------------------------------------------------------
  // A job that only its creator has ever held.

  predicate NeverHeld(s: Instance, id: string) {
    id !in s.jobs && id !in s.known
  }

  ghost predicate OnlyHeldBy(w: World, who: nat, id: string) {
    who < |w.instances| && forall k :: 0 <= k < |w.instances| && k != who ==> NeverHeld(w.instances[k], id)
  }

  /** No one but the creator has ever held the job, which it holds durably or not at all. */
  ghost predicate Owned(w: World, who: nat, id: string) {
    && OnlyHeldBy(w, who, id) && id in w.instances[who].known
    && (id in w.instances[who].jobs ==> Holds(w.instances[who], id))
  }

  /** The creator holds the job and it is on file. */
  ghost predicate Kept(w: World, who: nat, id: string) {
    Owned(w, who, id) && id in w.instances[who].jobs && id in w.file
  }

  /** The creator has given the job up and it is off the file. */
  ghost predicate Gone(w: World, who: nat, id: string) {
    Owned(w, who, id) && id !in w.instances[who].jobs && id !in w.file
  }

  /** Ids are unique: the job's is not given to another. */
  predicate Unique(a: Action, id: string) {
    a.op.Create? ==> a.op.job.id != id
  }

  /** The action is a boot that takes the job up from the file. */
  predicate Adopts(w: World, a: Action, id: string, c: Clockwork) {
    a.op.LoadDurable? && a.io.canRead && id in Adoptees(w.file, a.op.now, c)
  }

  /** Ids are unique, and no instance but the creator takes the job up. */
  predicate LeavesAlone(w: World, a: Action, who: nat, id: string, c: Clockwork) {
    Unique(a, id) && (a.who != who ==> !Adopts(w, a, id, c))
  }

  lemma OtherNeverTakesUp(w: World, a: Action, id: string, c: Clockwork)
    requires a.who < |w.instances| && NeverHeld(w.instances[a.who], id) && Unique(a, id) && !Adopts(w, a, id, c)
    ensures NeverHeld(Operated(w.instances[a.who], a.op, w.file, a.io, c), id)
    ensures NeverHeld(Act(w, a, c).instances[a.who], id)
  {
  }

  lemma CreatorStaysDurable(s: Instance, op: Operation, file: map<string, Job>, io: Access, id: string, c: Clockwork)
    requires id in s.jobs ==> Holds(s, id)
    requires op.Create? ==> op.job.id != id
    ensures var t := Operated(s, op, file, io, c); id in t.jobs ==> Holds(t, id)
    ensures s.known <= Operated(s, op, file, io, c).known
  {
  }

  lemma StaysOwned(w: World, a: Action, who: nat, id: string, c: Clockwork)
    requires Owned(w, who, id) && LeavesAlone(w, a, who, id, c)
    ensures Owned(Act(w, a, c), who, id)
  {
    if a.who == who {
      CreatorStaysDurable(w.instances[who], a.op, w.file, a.io, id, c);
    } else if a.who < |w.instances| {
      OtherNeverTakesUp(w, a, id, c);
    }
  }

  /** Every action leaves the job alone, at its moment of the run. */
  ghost predicate Undisturbed(w: World, actions: seq<Action>, who: nat, id: string, c: Clockwork) {
    forall i :: 0 <= i < |actions| ==> LeavesAlone(After(w, actions[..i], c), actions[i], who, id, c)
  }

  /** Another instance writes the file without having been able to read it. */
  predicate Blind(w: World, a: Action, who: nat) {
    a.who != who && Writes(w, a) && !a.io.canRead
  }

  /** The creator writes the file. */
  predicate OwnSave(w: World, a: Action, who: nat) {
    a.who == who && Writes(w, a)
  }

  ghost predicate BlindAt(w: World, actions: seq<Action>, i: nat, who: nat, c: Clockwork)
    requires i < |actions|
  {
    Blind(After(w, actions[..i], c), actions[i], who)
  }

  ghost predicate OwnSaveAt(w: World, actions: seq<Action>, i: nat, who: nat, c: Clockwork)
    requires i < |actions|
  {
    OwnSave(After(w, actions[..i], c), actions[i], who)
  }

  ghost predicate SavedBetween(w: World, actions: seq<Action>, j: nat, n: nat, who: nat, c: Clockwork)
    requires n <= |actions|
  {
    exists i :: j < i < n && OwnSaveAt(w, actions, i, who, c)
  }

  /** After each blind save among the first `n` actions the creator has saved again. */
  ghost predicate Repaired(w: World, actions: seq<Action>, n: nat, who: nat, c: Clockwork)
    requires n <= |actions|
  {
    forall j :: 0 <= j < n && BlindAt(w, actions, j, who, c) ==> SavedBetween(w, actions, j, n, who, c)
  }

  lemma RepairedStep(w: World, actions: seq<Action>, n: nat, who: nat, c: Clockwork)
    requires n < |actions|
    ensures Repaired(w, actions, n + 1, who, c) <==>
      OwnSaveAt(w, actions, n, who, c) || (Repaired(w, actions, n, who, c) && !BlindAt(w, actions, n, who, c))
  {
    assert !SavedBetween(w, actions, n, n + 1, who, c);
    assert BlindAt(w, actions, n, who, c) ==> !OwnSaveAt(w, actions, n, who, c);
    if OwnSaveAt(w, actions, n, who, c) {
      forall j | 0 <= j < n + 1 && BlindAt(w, actions, j, who, c) ensures SavedBetween(w, actions, j, n + 1, who, c) {
        assert j < n;
      }
    } else {
      forall j | 0 <= j < n
        ensures SavedBetween(w, actions, j, n + 1, who, c) == SavedBetween(w, actions, j, n, who, c)
      {
        OneMore(w, actions, j, n, who, c);
      }
    }
  }

  lemma OneMore(w: World, actions: seq<Action>, j: nat, n: nat, who: nat, c: Clockwork)
    requires j < n < |actions| && !OwnSaveAt(w, actions, n, who, c)
    ensures SavedBetween(w, actions, j, n + 1, who, c) == SavedBetween(w, actions, j, n, who, c)
  {
    if SavedBetween(w, actions, j, n, who, c) {
      var i :| j < i < n && OwnSaveAt(w, actions, i, who, c);
      assert j < i < n + 1;
    }
  }

  /** One action of a run, by the creator or not, and whether the job is on file after it. */
  lemma OwnedOneAction(w: World, a: Action, who: nat, id: string, c: Clockwork)
    requires Owned(w, who, id) && LeavesAlone(w, a, who, id, c)
    ensures OwnSave(w, a, who) ==> (id in Act(w, a, c).file <==> id in Act(w, a, c).instances[who].jobs)
    ensures !OwnSave(w, a, who) ==> (id in Act(w, a, c).file <==> id in w.file && !Blind(w, a, who))
    ensures id in Act(w, a, c).instances[who].jobs ==> id in w.instances[who].jobs || id in w.file
  {
    OneAction(w, a, id, c);
    if a.who == who {
      CreatorStaysDurable(w.instances[who], a.op, w.file, a.io, id, c);
    } else if a.who < |w.instances| {
      OtherNeverTakesUp(w, a, id, c);
    }
  }

  lemma {:induction false} HeldAfter(w: World, actions: seq<Action>, n: nat, who: nat, id: string, c: Clockwork)
    requires Kept(w, who, id) && Undisturbed(w, actions, who, id, c) && n <= |actions|
    ensures var t := After(w, actions[..n], c);
      && Owned(t, who, id)
      && (id in t.file ==> Repaired(w, actions, n, who, c))
      && (id in t.instances[who].jobs && Repaired(w, actions, n, who, c) ==> id in t.file)
  {
    if n == 0 {
      assert actions[..0] == [];
    } else {
      HeldAfter(w, actions, n - 1, who, id, c);
      ActionAt(w, actions, n - 1, c);
      var u, a := After(w, actions[..n - 1], c), actions[n - 1];
      StaysOwned(u, a, who, id, c);
      OwnedOneAction(u, a, who, id, c);
      RepairedStep(w, actions, n - 1, who, c);
    }
  }

  /**
   Over any interleaving, however reads and writes fail: a job its creator holds is on file exactly when after each
   save by an instance that could write the file and not read it the creator has saved again.
   */
  lemma HeldIsOnFileIff(w: World, actions: seq<Action>, who: nat, id: string, c: Clockwork)
    requires Kept(w, who, id) && Undisturbed(w, actions, who, id, c)
    requires who < |After(w, actions, c).instances| && id in After(w, actions, c).instances[who].jobs
    ensures id in After(w, actions, c).file <==>
      forall j :: 0 <= j < |actions| && BlindAt(w, actions, j, who, c) ==>
        exists i :: j < i < |actions| && OwnSaveAt(w, actions, i, who, c)
  {
    HeldAfter(w, actions, |actions|, who, id, c);
    assert actions[..|actions|] == actions;
    assert Repaired(w, actions, |actions|, who, c) <==>
      forall j :: 0 <= j < |actions| && BlindAt(w, actions, j, who, c) ==>
        SavedBetween(w, actions, j, |actions|, who, c);
  }

  // ---------------------------------------------------------------------------
  // Files that can be read before they are overwritten, and written by the creator.

  /** Another instance saves only when it could read what it overwrites, and the creator can always write. */
  predicate Sound(a: Action, who: nat) {
    if a.who == who then a.io.canWrite else a.io.canWrite ==> a.io.canRead
  }

  lemma GivingUpSaves(s: Instance, op: Operation, file: map<string, Job>, io: Access, id: string, c: Clockwork)
    requires Holds(s, id) && id !in Operated(s, op, file, io, c).jobs
    ensures Saves(s, op)
  {
    if op.Tick? {
      assert TickJob(s.jobs[id], op.now, c).None?;
      assert Touched(s.jobs[id], op.now);
    }
  }

  lemma ActionKeepsTrack(w: World, a: Action, who: nat, id: string, c: Clockwork)
    requires (Kept(w, who, id) || Gone(w, who, id)) && LeavesAlone(w, a, who, id, c) && Sound(a, who)
    ensures Kept(Act(w, a, c), who, id) || Gone(Act(w, a, c), who, id)
  {
    StaysOwned(w, a, who, id, c);
    OwnedOneAction(w, a, who, id, c);
    if a.who == who && Kept(w, who, id) && id !in Operated(w.instances[who], a.op, w.file, a.io, c).jobs {
      GivingUpSaves(w.instances[who], a.op, w.file, a.io, id, c);
    }
  }

  lemma {:induction false} KeptOrGone(w: World, actions: seq<Action>, n: nat, who: nat, id: string, c: Clockwork)
    requires Kept(w, who, id) && Undisturbed(w, actions, who, id, c) && n <= |actions|
    requires forall i :: 0 <= i < |actions| ==> Sound(actions[i], who)
    ensures var t := After(w, actions[..n], c); Kept(t, who, id) || Gone(t, who, id)
  {
    if n == 0 {
      assert actions[..0] == [];
    } else {
      KeptOrGone(w, actions, n - 1, who, id, c);
      TrackKeptAt(w, actions, n - 1, who, id, c);
    }
  }

  lemma TrackKeptAt(w: World, actions: seq<Action>, n: nat, who: nat, id: string, c: Clockwork)
    requires Undisturbed(w, actions, who, id, c) && n < |actions| && Sound(actions[n], who)
    requires var t := After(w, actions[..n], c); Kept(t, who, id) || Gone(t, who, id)
    ensures var t := After(w, actions[..n + 1], c); Kept(t, who, id) || Gone(t, who, id)
  {
    ActionAt(w, actions, n, c);
    ActionKeepsTrack(After(w, actions[..n], c), actions[n], who, id, c);
  }

  /**
   Over any such interleaving of any number of instances: the job is on file exactly as long as its creator holds it.
   */
  lemma OnFileWhileHeld(w: World, actions: seq<Action>, who: nat, id: string, c: Clockwork)
    requires Kept(w, who, id) && Undisturbed(w, actions, who, id, c)
    requires forall i :: 0 <= i < |actions| ==> Sound(actions[i], who)
    ensures var t := After(w, actions, c);
      who < |t.instances| && (id in t.file <==> id in t.instances[who].jobs)
  {
    KeptOrGone(w, actions, |actions|, who, id, c);
    assert actions[..|actions|] == actions;
  }

  // ---------------------------------------------------------------------------
  // The beginning and the end of a job.

  /** Creating a durable job under a new id, with a file that can be written, is where this begins. */
  lemma CreateIsKept(w: World, who: nat, job: Job, io: Access, c: Clockwork)
    requires who < |w.instances| && job.durable && io.canWrite
    requires forall k :: 0 <= k < |w.instances| ==> NeverHeld(w.instances[k], job.id)
    ensures Kept(Act(w, Action(who, Create(job), io), c), who, job.id)
  {
    var t := w.instances[who].(jobs := w.instances[who].jobs[job.id := job]);
    assert Holds(t, job.id) && job.id in Durables(t.jobs);
  }

  lemma GoneStaysGone(w: World, a: Action, who: nat, id: string, c: Clockwork)
    requires Gone(w, who, id) && Unique(a, id)
    ensures Gone(Act(w, a, c), who, id)
  {
    assert !Adopts(w, a, id, c);
    StaysOwned(w, a, who, id, c);
    OwnedOneAction(w, a, who, id, c);
  }

  /**
   A job its creator has given up and that is off the file never comes back, whatever instances then boot, save or tick,
   and whether or not they can read and write the file.
   */
  lemma {:induction false} GoneForGood(w: World, actions: seq<Action>, who: nat, id: string, c: Clockwork)
    requires Gone(w, who, id) && forall i :: 0 <= i < |actions| ==> Unique(actions[i], id)
    ensures Gone(After(w, actions, c), who, id)
    decreases |actions|
  {
    if actions == [] {
      assert After(w, actions, c) == w;
    } else {
      var n := |actions| - 1;
      GoneForGood(w, actions[..n], who, id, c);
      GoneStaysGone(After(w, actions[..n], c), actions[n], who, id, c);
    }
  }

  /** That is where a removal, a reset or a last fire with a writable file leaves a job no one else has taken up. */
  lemma GivingUpIsGone(w: World, actions: seq<Action>, a: Action, who: nat, id: string, c: Clockwork)
    requires Kept(w, who, id) && Undisturbed(w, actions + [a], who, id, c) && a.who == who && a.io.canWrite
    requires var u := After(w, actions, c); var t := Act(u, a, c);
      && who < |u.instances| && id in u.instances[who].jobs && id !in t.instances[who].jobs
    ensures Gone(After(w, actions + [a], c), who, id)
  {
    var all := actions + [a];
    assert all[..|actions|] == actions && all[|actions|] == a;
    HeldAfter(w, all, |actions|, who, id, c);
    var u := After(w, actions, c);
    assert LeavesAlone(After(w, all[..|actions|], c), all[|actions|], who, id, c);
    StaysOwned(u, a, who, id, c);
    OwnedOneAction(u, a, who, id, c);
    GivingUpSaves(u.instances[who], a.op, u.file, a.io, id, c);
  }
}
