/** What a rollback restores, and what rolling the rollback back redoes. */
module HarnessLaws {
  import opened Wrappers
  import opened HarnessSpec

  // ---------------------------------------------------------------------------
  // One key at a time.

  lemma GetAfterEdit(entries: Entries, a: AppliedEdit, k: Key)
    ensures Get(AfterEdit(entries, a), k) == if a.applied && KeyOf(a) == k then a.after else Get(entries, k)
    ensures k.kind in entries ==> k.kind in AfterEdit(entries, a)
    ensures a.applied ==> a.edit.kind in AfterEdit(entries, a)
  {
  }

  /** The last applied edit on a key, or -1. */
  function LastOn(edits: seq<AppliedEdit>, k: Key): (i: int)
    ensures -1 <= i < |edits|
    ensures i >= 0 ==> edits[i].applied && KeyOf(edits[i]) == k
    decreases |edits|
  {
    if edits == [] then -1
    else
      var n := |edits| - 1;
      if edits[n].applied && KeyOf(edits[n]) == k then n else LastOn(edits[..n], k)
  }

  lemma LastOnGrows(edits: seq<AppliedEdit>, a: AppliedEdit, k: Key)
    ensures LastOn(edits + [a], k) == if a.applied && KeyOf(a) == k then |edits| else LastOn(edits, k)
  {
    assert (edits + [a])[..|edits|] == edits;
  }

  /** After a proposal, a key holds what the last edit on it left there; other keys are as they were. */
  lemma {:induction false} ApplyLeaves(entries: Entries, edits: seq<Edit>, scope: string, clock: nat -> string, k: Key)
    ensures var r := Apply(entries, edits, scope, clock);
      var i := LastOn(r.edits, k);
      Get(r.entries, k) == if i < 0 then Get(entries, k) else r.edits[i].after
    decreases |edits|
  {
    if edits == [] {
    } else {
      var n := |edits| - 1;
      ApplyLeaves(entries, edits[..n], scope, clock, k);
      var done := Apply(entries, edits[..n], scope, clock);
      var a := Carried(done.entries, edits[n], scope, clock(n));
      GetAfterEdit(done.entries, a, k);
      assert (done.edits + [a])[..n] == done.edits;
    }
  }

  // ---------------------------------------------------------------------------
  // The proposal itself: which of its edits are carried out, and on which keys, does not depend on the entries.

  predicate Valid(edit: Edit) {
    ValidateEdit(edit, ComputedId(edit)).None?
  }

  function Target(edit: Edit): Key {
    Key(edit.kind, ComputedId(edit))
  }

  /** The last valid edit on a key, or -1. */
  function LastValid(edits: seq<Edit>, k: Key): (i: int)
    ensures -1 <= i < |edits|
    ensures i >= 0 ==> Valid(edits[i]) && Target(edits[i]) == k
    decreases |edits|
  {
    if edits == [] then -1
    else
      var n := |edits| - 1;
      if Valid(edits[n]) && Target(edits[n]) == k then n else LastValid(edits[..n], k)
  }

  lemma {:induction false} LastValidIsLast(entries: Entries, edits: seq<Edit>, scope: string, clock: nat -> string,
                                           k: Key)
    ensures LastOn(Apply(entries, edits, scope, clock).edits, k) == LastValid(edits, k)
    decreases |edits|
  {
    if edits == [] {
    } else {
      var n := |edits| - 1;
      LastValidIsLast(entries, edits[..n], scope, clock, k);
      var done := Apply(entries, edits[..n], scope, clock);
      LastOnGrows(done.edits, Carried(done.entries, edits[n], scope, clock(n)), k);
    }
  }

  lemma LastCarried(entries: Entries, edits: seq<Edit>, scope: string, clock: nat -> string)
    requires edits != []
    ensures var n := |edits| - 1;
      var done := Apply(entries, edits[..n], scope, clock);
      Apply(entries, edits, scope, clock).edits == done.edits + [Carried(done.entries, edits[n], scope, clock(n))]
  {
  }

  /** Each result is that of its edit on what the edits before it left. */
  lemma {:induction false} CarriedAt(entries: Entries, edits: seq<Edit>, scope: string, clock: nat -> string, i: nat)
    requires i < |edits|
    ensures Apply(entries, edits, scope, clock).edits[i] ==
      Carried(Apply(entries, edits[..i], scope, clock).entries, edits[i], scope, clock(i))
    decreases |edits|
  {
    var n := |edits| - 1;
    LastCarried(entries, edits, scope, clock);
    if i == n {
    } else {
      CarriedAt(entries, edits[..n], scope, clock, i);
      assert edits[..n][..i] == edits[..i];
    }
  }

  /** Rejected edits change nothing: where every edit on a key was rejected, the key is untouched. */
  lemma RejectedChangesNothing(entries: Entries, edits: seq<Edit>, scope: string, clock: nat -> string, k: Key)
    requires var r := Apply(entries, edits, scope, clock);
      forall i :: 0 <= i < |r.edits| && KeyOf(r.edits[i]) == k ==> !r.edits[i].applied
    ensures Get(Apply(entries, edits, scope, clock).entries, k) == Get(entries, k)
  {
    ApplyLeaves(entries, edits, scope, clock, k);
  }

  /** No proposal whatsoever touches the base system prompt. */
  lemma BasePromptIsSafe(entries: Entries, edits: seq<Edit>, scope: string, clock: nat -> string)
    ensures var k := Key(Prompt, BASE_PROMPT);
      Get(Apply(entries, edits, scope, clock).entries, k) == Get(entries, k)
  {
    var r := Apply(entries, edits, scope, clock);
    forall i | 0 <= i < |r.edits| && KeyOf(r.edits[i]) == Key(Prompt, BASE_PROMPT) ensures !r.edits[i].applied {
      CarriedAt(entries, edits, scope, clock, i);
    }
    RejectedChangesNothing(entries, edits, scope, clock, Key(Prompt, BASE_PROMPT));
  }

  // ---------------------------------------------------------------------------
  // Rolling back.

  /** Results as Apply or Undo make them: every applied edit can be undone, and its kind has a map. */
  ghost predicate Undoable(entries: Entries, edits: seq<AppliedEdit>) {
    forall i :: 0 <= i < |edits| && edits[i].applied ==> Undoes(edits[i]) && edits[i].edit.kind in entries
  }

  lemma UndoablePrefix(entries: Entries, edits: seq<AppliedEdit>, n: nat)
    requires Undoable(entries, edits) && n <= |edits|
    ensures Undoable(entries, edits[..n])
  {
  }

  lemma {:induction false} ApplyIsUndoable(entries: Entries, edits: seq<Edit>, scope: string, clock: nat -> string)
    ensures var r := Apply(entries, edits, scope, clock); Undoable(r.entries, r.edits)
    decreases |edits|
  {
    if edits == [] {
    } else {
      var n := |edits| - 1;
      ApplyIsUndoable(entries, edits[..n], scope, clock);
      var done := Apply(entries, edits[..n], scope, clock);
      var a := Carried(done.entries, edits[n], scope, clock(n));
      UndoableGrows(done, a);
    }
  }

  lemma UndoableGrows(done: Outcome, a: AppliedEdit)
    requires Undoable(done.entries, done.edits) && (a.applied ==> Undoes(a))
    ensures Undoable(AfterEdit(done.entries, a), done.edits + [a])
  {
    forall i | 0 <= i < |done.edits| && done.edits[i].applied
      ensures done.edits[i].edit.kind in AfterEdit(done.entries, a)
    {
      GetAfterEdit(done.entries, a, KeyOf(done.edits[i]));
    }
  }

  lemma {:induction false} UndoKeepsKinds(entries: Entries, edits: seq<AppliedEdit>, clock: nat -> string, kind: Kind)
    requires kind in entries
    ensures kind in Undo(entries, edits, clock).entries
    decreases |edits|
  {
    if edits == [] {
    } else {
      UndoKeepsKinds(entries, edits[..|edits| - 1], clock, kind);
    }
  }

  /** What undoing an edit leaves under its key. */
  function Left(a: AppliedEdit, now: string): Option<Entry>
    requires Undoes(a)
  {
    Reverse(a, now).after
  }

  lemma UndoStep(entries: Entries, edits: seq<AppliedEdit>, clock: nat -> string)
    requires edits != [] && Undoable(entries, edits)
    ensures var n := |edits| - 1;
      var done := Undo(entries, edits[..n], clock);
      Undo(entries, edits, clock) ==
        if !edits[n].applied then done
        else Outcome(AfterEdit(done.entries, Reverse(edits[n], clock(n))), done.edits + [Reverse(edits[n], clock(n))])
  {
    var n := |edits| - 1;
    if edits[n].applied {
      assert Undoes(edits[n]) && edits[n].edit.kind in entries;
      UndoKeepsKinds(entries, edits[..n], clock, edits[n].edit.kind);
    }
  }

  /** After a rollback, a key holds what undoing the last edit on it leaves. */
  lemma {:induction false} UndoLeaves(entries: Entries, edits: seq<AppliedEdit>, clock: nat -> string, k: Key)
    requires Undoable(entries, edits)
    ensures var i := LastOn(edits, k);
      Get(Undo(entries, edits, clock).entries, k) ==
        if i < 0 then Get(entries, k) else if Undoes(edits[i]) then Left(edits[i], clock(i)) else None
    decreases |edits|
  {
    if edits == [] {
    } else {
      var n := |edits| - 1;
      UndoablePrefix(entries, edits, n);
      UndoLeaves(entries, edits[..n], clock, k);
      UndoStep(entries, edits, clock);
      if edits[n].applied {
        GetAfterEdit(Undo(entries, edits[..n], clock).entries, Reverse(edits[n], clock(n)), k);
      }
    }
  }

  /** Two states of a key that differ at most in when and how often the entry was updated. */
  predicate Alike(a: Option<Entry>, b: Option<Entry>) {
    match (a, b)
    case (None, None) => true
    case (Some(x), Some(y)) => x.(updatedAt := y.updatedAt, version := y.version) == y
    case _ => false
  }

  ghost predicate AllAlike(a: Entries, b: Entries) {
    forall k :: Alike(Get(a, k), Get(b, k))
  }

  /** What edit `i` of the proposal meets under its key in its turn. */
  ghost function Met(entries: Entries, edits: seq<Edit>, scope: string, clock: nat -> string, i: nat): Option<Entry>
    requires i < |edits|
  {
    Get(Apply(entries, edits[..i], scope, clock).entries, Target(edits[i]))
  }

  function OrNone(found: Option<Entry>): Entry {
    if found.None? then NO_ENTRY else found.value
  }

  /** What undoing an edit puts back is like the original: nothing for a create, and else the entry the edit met. */
  predicate PutsBack(action: Action, met: Option<Entry>, original: Option<Entry>) {
    if action.Create? then original.None? else Alike(Some(OrNone(met)), original)
  }

  lemma RestoredIsAlike(before: Entry, now: string, original: Option<Entry>)
    ensures Alike(Some(Restored(before, now)), original) <==> Alike(Some(before), original)
  {
  }

  lemma LeftIsAlikeIff(a: AppliedEdit, now: string, met: Option<Entry>, original: Option<Entry>)
    requires Undoes(a) && a.before == Some(OrNone(met))
    ensures Alike(Left(a, now), original) <==> PutsBack(a.edit.action, met, original)
  {
    RestoredIsAlike(OrNone(met), now, original);
  }

  /** After a proposal and its rollback a key holds what undoing its last valid edit leaves. */
  lemma UndoneIs(entries: Entries, edits: seq<Edit>, scope: string, clock: nat -> string, later: nat -> string, k: Key)
    ensures var r := Apply(entries, edits, scope, clock);
      var i := LastValid(edits, k);
      var undone := Get(Undo(r.entries, r.edits, later).entries, k);
      if i < 0 then undone == Get(entries, k)
      else
        && r.edits[i] == Carried(Apply(entries, edits[..i], scope, clock).entries, edits[i], scope, clock(i))
        && Undoes(r.edits[i]) && undone == Left(r.edits[i], later(i))
  {
    var r := Apply(entries, edits, scope, clock);
    ApplyLeaves(entries, edits, scope, clock, k);
    ApplyIsUndoable(entries, edits, scope, clock);
    UndoLeaves(r.entries, r.edits, later, k);
    LastValidIsLast(entries, edits, scope, clock, k);
    var i := LastValid(edits, k);
    if i >= 0 {
      CarriedAt(entries, edits, scope, clock, i);
    }
  }

  /**
   Of any proposal, a rollback restores a key exactly when no valid edit is on it, or its last valid edit is a create
   and it was absent, or its last valid edit met in its turn the entry that was there, up to update time and version.
   */
  lemma RestoresKeyIff(entries: Entries, edits: seq<Edit>, scope: string, clock: nat -> string, later: nat -> string,
                       k: Key)
    ensures var r := Apply(entries, edits, scope, clock);
      var i := LastValid(edits, k);
      Alike(Get(Undo(r.entries, r.edits, later).entries, k), Get(entries, k)) <==>
      (i < 0 || PutsBack(edits[i].action, Met(entries, edits, scope, clock, i), Get(entries, k)))
  {
    var r := Apply(entries, edits, scope, clock);
    UndoneIs(entries, edits, scope, clock, later, k);
    var i := LastValid(edits, k);
    if i >= 0 {
      LeftIsAlikeIff(r.edits[i], later(i), Met(entries, edits, scope, clock, i), Get(entries, k));
    }
  }

  /** After a proposal a key holds what its last valid edit wrote over what that edit met. */
  lemma HeldIs(entries: Entries, edits: seq<Edit>, scope: string, clock: nat -> string, k: Key)
    ensures var p := LastValid(edits, k);
      Get(Apply(entries, edits, scope, clock).entries, k) ==
        if p < 0 then Get(entries, k)
        else if edits[p].action.Delete? then None
        else Some(Written(edits[p], k.id, OrNone(Met(entries, edits, scope, clock, p)), scope, clock(p)))
  {
    ApplyLeaves(entries, edits, scope, clock, k);
    LastValidIsLast(entries, edits, scope, clock, k);
    if LastValid(edits, k) >= 0 {
      CarriedAt(entries, edits, scope, clock, LastValid(edits, k));
    }
  }

  /** What an edit meets is what the valid edit before it on its key wrote, or the original entry if there is none. */
  lemma MetIs(entries: Entries, edits: seq<Edit>, scope: string, clock: nat -> string, i: nat)
    requires i < |edits|
    ensures var p := LastValid(edits[..i], Target(edits[i]));
      Met(entries, edits, scope, clock, i) ==
        if p < 0 then Get(entries, Target(edits[i]))
        else if edits[p].action.Delete? then None
        else Some(Written(edits[p], Target(edits[i]).id, OrNone(Met(entries, edits, scope, clock, p)), scope, clock(p)))
  {
    HeldIs(entries, edits[..i], scope, clock, Target(edits[i]));
    var p := LastValid(edits[..i], Target(edits[i]));
    assert p >= 0 ==> edits[..i][..p] == edits[..p];
  }

  /** A key with one valid edit: a create must have found it absent, an update or delete present. */
  lemma EditedOnceIff(entries: Entries, edits: seq<Edit>, scope: string, clock: nat -> string, later: nat -> string,
                      k: Key)
    requires LastValid(edits, k) >= 0 && LastValid(edits[..LastValid(edits, k)], k) < 0
    ensures var r := Apply(entries, edits, scope, clock);
      Alike(Get(Undo(r.entries, r.edits, later).entries, k), Get(entries, k)) <==>
      (edits[LastValid(edits, k)].action.Create? <==> Get(entries, k).None?)
  {
    var i := LastValid(edits, k);
    RestoresKeyIff(entries, edits, scope, clock, later, k);
    MetIs(entries, edits, scope, clock, i);
  }

  /**
   Edits are undone in the order they were made: the update of an entry just created brings the created entry back.
   */
  lemma CreatedThenUpdatedStays(entries: Entries, create: Edit, update: Edit, scope: string,
                                clock: nat -> string, later: nat -> string)
    requires Valid(create) && Valid(update) && Target(create) == Target(update)
    requires create.action.Create? && update.action.Update? && Get(entries, Target(create)).None?
    ensures var r := Apply(entries, [create, update], scope, clock);
      var k := Target(create);
      Alike(Get(Undo(r.entries, r.edits, later).entries, k), Some(Written(create, k.id, NO_ENTRY, scope, clock(0))))
    ensures var r := Apply(entries, [create, update], scope, clock);
      !AllAlike(Undo(r.entries, r.edits, later).entries, entries)
  {
    var edits, k := [create, update], Target(create);
    LastOfTwo(create, update);
    UndoneIs(entries, edits, scope, clock, later, k);
    SecondMeets(entries, create, update, scope, clock);
    var written := Written(create, k.id, NO_ENTRY, scope, clock(0));
    RestoredIsAlike(written, later(1), Some(written));
  }

  lemma LastOfTwo(create: Edit, update: Edit)
    requires Valid(create) && Valid(update) && Target(create) == Target(update)
    ensures LastValid([create, update], Target(create)) == 1 && LastValid([create], Target(create)) == 0
    ensures [create, update][..1] == [create] && [create][..0] == []
  {
  }

  lemma SecondMeets(entries: Entries, create: Edit, update: Edit, scope: string, clock: nat -> string)
    requires Valid(create) && Valid(update) && Target(create) == Target(update)
    requires create.action.Create? && Get(entries, Target(create)).None?
    ensures Met(entries, [create, update], scope, clock, 1) ==
      Some(Written(create, Target(create).id, NO_ENTRY, scope, clock(0)))
  {
    LastOfTwo(create, update);
    HeldIs(entries, [create], scope, clock, Target(create));
    FirstMeets(entries, create, scope, clock);
  }

  lemma FirstMeets(entries: Entries, edit: Edit, scope: string, clock: nat -> string)
    ensures Met(entries, [edit], scope, clock, 0) == Get(entries, Target(edit))
  {
    assert [edit][..0] == [];
  }

  /** The last valid edit on its key. */
  predicate IsLast(edits: seq<Edit>, i: nat) {
    i < |edits| && LastValid(edits, Target(edits[i])) == i
  }

  /** So a rollback restores the whole state exactly when the last edit on each key puts back what was there. */
  lemma RestoresIff(entries: Entries, edits: seq<Edit>, scope: string, clock: nat -> string, later: nat -> string)
    ensures var r := Apply(entries, edits, scope, clock);
      AllAlike(Undo(r.entries, r.edits, later).entries, entries) <==>
      forall i: nat :: IsLast(edits, i) ==>
        PutsBack(edits[i].action, Met(entries, edits, scope, clock, i), Get(entries, Target(edits[i])))
  {
    var r := Apply(entries, edits, scope, clock);
    var undone := Undo(r.entries, r.edits, later).entries;
    forall i: nat | IsLast(edits, i)
      ensures Alike(Get(undone, Target(edits[i])), Get(entries, Target(edits[i]))) <==>
        PutsBack(edits[i].action, Met(entries, edits, scope, clock, i), Get(entries, Target(edits[i])))
    {
      RestoresKeyIff(entries, edits, scope, clock, later, Target(edits[i]));
    }
    forall k ensures LastValid(edits, k) < 0 ==> Alike(Get(undone, k), Get(entries, k)) {
      RestoresKeyIff(entries, edits, scope, clock, later, k);
    }
    assert forall k :: LastValid(edits, k) >= 0 ==>
      IsLast(edits, LastValid(edits, k)) && Target(edits[LastValid(edits, k)]) == k;
  }

  // ---------------------------------------------------------------------------
  // Rolling the rollback back.

  /** The last undone edit on a key is reported, last among the reports on that key, as reversed. */
  ghost predicate Reported(edits: seq<AppliedEdit>, reports: seq<AppliedEdit>, clock: nat -> string, k: Key) {
    var i, j := LastOn(edits, k), LastOn(reports, k);
    && (j < 0 <==> i < 0)
    && (i >= 0 ==> Undoes(edits[i]) && j >= 0 && reports[j] == Reverse(edits[i], clock(i)))
  }

  lemma ReportedGrows(edits: seq<AppliedEdit>, a: AppliedEdit, reports: seq<AppliedEdit>, clock: nat -> string, k: Key)
    requires Reported(edits, reports, clock, k) && (a.applied ==> Undoes(a))
    ensures Reported(edits + [a], if a.applied then reports + [Reverse(a, clock(|edits|))] else reports, clock, k)
  {
    LastOnGrows(edits, a, k);
    if a.applied {
      LastOnGrows(reports, Reverse(a, clock(|edits|)), k);
    }
  }

  lemma {:induction false} UndoReports(entries: Entries, edits: seq<AppliedEdit>, clock: nat -> string, k: Key)
    requires Undoable(entries, edits)
    ensures Reported(edits, Undo(entries, edits, clock).edits, clock, k)
    decreases |edits|
  {
    if edits == [] {
    } else {
      var n := |edits| - 1;
      UndoablePrefix(entries, edits, n);
      UndoReports(entries, edits[..n], clock, k);
      UndoStep(entries, edits, clock);
      ReportedGrows(edits[..n], edits[n], Undo(entries, edits[..n], clock).edits, clock, k);
      assert edits == edits[..n] + [edits[n]];
    }
  }

  predicate Complete(a: AppliedEdit) {
    a.applied ==> Undoes(a) && (a.after.None? <==> a.edit.action.Delete?)
  }

  lemma {:induction false} UndoIsUndoable(entries: Entries, edits: seq<AppliedEdit>, clock: nat -> string)
    requires Undoable(entries, edits) && forall i :: 0 <= i < |edits| ==> Complete(edits[i])
    ensures var u := Undo(entries, edits, clock); Undoable(u.entries, u.edits)
    decreases |edits|
  {
    if edits == [] {
    } else {
      var n := |edits| - 1;
      UndoablePrefix(entries, edits, n);
      UndoIsUndoable(entries, edits[..n], clock);
      UndoStep(entries, edits, clock);
      if edits[n].applied {
        assert Complete(edits[n]);
        UndoableGrows(Undo(entries, edits[..n], clock), Reverse(edits[n], clock(n)));
      }
    }
  }

  lemma RedoneIsAlike(a: AppliedEdit, now: string, later: string)
    requires Undoes(a) && Complete(a) && Undoes(Reverse(a, now))
    ensures Alike(Left(Reverse(a, now), later), a.after)
  {
  }

  lemma ApplyIsComplete(entries: Entries, edits: seq<Edit>, scope: string, clock: nat -> string, i: nat)
    requires i < |edits|
    ensures Complete(Apply(entries, edits, scope, clock).edits[i])
  {
    CarriedAt(entries, edits, scope, clock, i);
  }

  /** Rolling back the rollback redoes the proposal, whatever the keys and whatever the edits met. */
  lemma RollbackOfRollbackRedoes(entries: Entries, edits: seq<Edit>, scope: string,
                                 clock: nat -> string, later: nat -> string, latest: nat -> string)
    ensures var r := Apply(entries, edits, scope, clock);
      var u := Undo(r.entries, r.edits, later);
      AllAlike(Undo(u.entries, u.edits, latest).entries, r.entries)
  {
    var r := Apply(entries, edits, scope, clock);
    var u := Undo(r.entries, r.edits, later);
    ApplyIsUndoable(entries, edits, scope, clock);
    forall i | 0 <= i < |r.edits| ensures Complete(r.edits[i]) {
      ApplyIsComplete(entries, edits, scope, clock, i);
    }
    UndoIsUndoable(r.entries, r.edits, later);
    forall k ensures Alike(Get(Undo(u.entries, u.edits, latest).entries, k), Get(r.entries, k)) {
      KeyIsRedone(entries, edits, scope, clock, later, latest, k);
    }
  }

  lemma KeyIsRedone(entries: Entries, edits: seq<Edit>, scope: string,
                    clock: nat -> string, later: nat -> string, latest: nat -> string, k: Key)
    requires var r := Apply(entries, edits, scope, clock);
      var u := Undo(r.entries, r.edits, later);
      Undoable(r.entries, r.edits) && Undoable(u.entries, u.edits)
    ensures var r := Apply(entries, edits, scope, clock);
      var u := Undo(r.entries, r.edits, later);
      Alike(Get(Undo(u.entries, u.edits, latest).entries, k), Get(r.entries, k))
  {
    var r := Apply(entries, edits, scope, clock);
    var u := Undo(r.entries, r.edits, later);
    ApplyLeaves(entries, edits, scope, clock, k);
    UndoLeaves(r.entries, r.edits, later, k);
    UndoLeaves(u.entries, u.edits, latest, k);
    UndoReports(r.entries, r.edits, later, k);
    var i, j := LastOn(r.edits, k), LastOn(u.edits, k);
    if i >= 0 {
      ApplyIsComplete(entries, edits, scope, clock, i);
      RedoneIsAlike(r.edits[i], later(i), latest(j));
    }
  }
}
