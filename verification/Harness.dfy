/** internal/harness/refinement.go: applying and rolling back a refinement, in place. */
module Harnesses {
  import opened Wrappers
  import opened HarnessSpec

  class HarnessState {
    var entries: Entries

    constructor ()
      ensures entries == map[]
    {
      entries := map[];
    }

    method ApplyRefinementProposal(edits: seq<Edit>, scope: string, clock: nat -> string)
      returns (result: seq<AppliedEdit>)
      modifies this
      ensures Outcome(entries, result) == Apply(old(entries), edits, scope, clock)
    {
      result := [];
      for i := 0 to |edits|
        invariant Outcome(entries, result) == Apply(old(entries), edits[..i], scope, clock)
      {
        assert edits[..i + 1][..i] == edits[..i];
        var applied := ApplyEdit(edits[i], scope, clock(i));
        result := result + [applied];
      }
      assert edits[..|edits|] == edits;
    }

    method ApplyEdit(edit: Edit, scope: string, now: string) returns (applied: AppliedEdit)
      modifies this
      ensures applied == Carried(old(entries), edit, scope, now)
      ensures entries == AfterEdit(old(entries), applied)
    {
      var computedId := edit.id;
      if computedId == "" && edit.action.Create? {
        computedId := Slug(edit.title, KindName(edit.kind));
      }
      var flaw := ValidateEdit(edit, computedId);
      if flaw.Some? {
        return AppliedEdit(edit, computedId, None, None, false, flaw);
      }

      var records := if edit.kind in entries then entries[edit.kind] else map[];
      var before := if computedId in records then records[computedId] else NO_ENTRY;
      if edit.action.Delete? {
        entries := entries[edit.kind := records - {computedId}];
        return AppliedEdit(edit, computedId, Some(before), None, true, None);
      }
      var entry := Written(edit, computedId, before, scope, now);
      entries := entries[edit.kind := records[computedId := entry]];
      applied := AppliedEdit(edit, computedId, Some(before), Some(entry), true, None);
    }

    method RollbackResult(target: seq<AppliedEdit>, clock: nat -> string) returns (rollback: seq<AppliedEdit>)
      modifies this
      ensures Outcome(entries, rollback) == Undo(old(entries), target, clock)
    {
      rollback := [];
      for i := 0 to |target|
        invariant Outcome(entries, rollback) == Undo(old(entries), target[..i], clock)
      {
        assert target[..i + 1][..i] == target[..i];
        var undone := UndoEdit(target[i], clock(i));
        if undone.Some? {
          rollback := rollback + [undone.value];
        }
      }
      assert target[..|target|] == target;
    }

    method UndoEdit(a: AppliedEdit, now: string) returns (r: Option<AppliedEdit>)
      modifies this
      ensures r == if Undoes(a) && a.edit.kind in old(entries) then Some(Reverse(a, now)) else None
      ensures entries == if r.Some? then AfterEdit(old(entries), r.value) else old(entries)
    {
      if !a.applied || a.edit.kind !in entries {
        return None;
      }
      var records := entries[a.edit.kind];
      match a.edit.action
      case Create =>
        entries := entries[a.edit.kind := records - {a.id}];
        r := Some(AppliedEdit(Plain(Delete, a.edit.kind, a.id, a.edit.title, ""), a.id, a.after, None, true, None));
      case Update =>
        if a.before.None? {
          return None;
        }
        var entry := Restored(a.before.value, now);
        entries := entries[a.edit.kind := records[a.id := entry]];
        r := Some(AppliedEdit(Plain(Update, a.edit.kind, a.id, entry.title, entry.content), a.id, a.after,
          Some(entry), true, None));
      case Delete =>
        if a.before.None? {
          return None;
        }
        var entry := Restored(a.before.value, now);
        entries := entries[a.edit.kind := records[a.id := entry]];
        r := Some(AppliedEdit(Plain(Create, a.edit.kind, a.id, entry.title, entry.content), a.id, None, Some(entry),
          true, None));
      case OtherAction(_) =>
        r := None;
    }
  }
}
