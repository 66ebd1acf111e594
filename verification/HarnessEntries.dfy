/** internal/harness/refinement.go: what a proposal stores, field by field, in terms of its edits alone. */
module HarnessEntries {
  import opened Wrappers
  import opened HarnessSpec
  import opened HarnessLaws

  predicate On(edit: Edit, k: Key) {
    Valid(edit) && Target(edit) == k
  }

  /** Some valid edit deletes the key. */
  predicate Wiped(edits: seq<Edit>, k: Key) {
    exists i :: 0 <= i < |edits| && On(edits[i], k) && edits[i].action.Delete?
  }

  /** How often the key is written since it was last deleted. */
  function Writes(edits: seq<Edit>, k: Key): nat
    decreases |edits|
  {
    if edits == [] then 0
    else
      var n := |edits| - 1;
      if !On(edits[n], k) then Writes(edits[..n], k)
      else if edits[n].action.Delete? then 0
      else Writes(edits[..n], k) + 1
  }

  /** The first of these writes, or -1. */
  function FirstWrite(edits: seq<Edit>, k: Key): (i: int)
    ensures -1 <= i < |edits| && (i >= 0 <==> Writes(edits, k) > 0)
    decreases |edits|
  {
    if edits == [] then -1
    else
      var n := |edits| - 1;
      if !On(edits[n], k) then FirstWrite(edits[..n], k)
      else if edits[n].action.Delete? then -1
      else if Writes(edits[..n], k) == 0 then n
      else FirstWrite(edits[..n], k)
  }

  lemma WipedOneMore(edits: seq<Edit>, edit: Edit, k: Key)
    ensures Wiped(edits + [edit], k) <==> Wiped(edits, k) || (On(edit, k) && edit.action.Delete?)
  {
    var all := edits + [edit];
    if i :| 0 <= i < |edits| && On(edits[i], k) && edits[i].action.Delete? {
      assert all[i] == edits[i];
    }
    if On(edit, k) && edit.action.Delete? {
      assert all[|edits|] == edit;
    }
  }

  /** The entry the writes go on from: the original one, unless there is none or it was deleted in between. */
  ghost predicate GoesOn(original: Option<Entry>, edits: seq<Edit>, k: Key) {
    original.Some? && original.value.id != "" && !Wiped(edits, k)
  }

  /** The entry that edit `p`, the last on the key, leaves: its own texts, and the history of the key. */
  ghost predicate Stores(e: Entry, edits: seq<Edit>, p: nat, scope: string, clock: nat -> string, k: Key,
                         original: Option<Entry>)
    requires p < |edits|
  {
    var edit := edits[p];
    && e.id == k.id && e.kind == k.kind
    && e.title == edit.title && e.content == edit.content && e.path == edit.path
    && e.scope == scope && e.source == "refine" && e.updatedAt == clock(p)
    && e.reference == (if edit.reference.Some? then edit.reference.value else map[])
    && e.arguments == (if edit.arguments.Some? then edit.arguments.value else map[])
    && e.metadata == (if edit.metadata.Some? then edit.metadata.value else map[])
    && e.version == Writes(edits, k) + (if GoesOn(original, edits, k) then original.value.version else 0)
    && FirstWrite(edits, k) >= 0
    && e.createdAt == if GoesOn(original, edits, k) then original.value.createdAt else clock(FirstWrite(edits, k))
  }

  /** What a key holds after a proposal, told from the proposal and the original entry. */
  ghost predicate Holds(found: Option<Entry>, edits: seq<Edit>, scope: string, clock: nat -> string, k: Key,
                        original: Option<Entry>)
  {
    var p := LastValid(edits, k);
    if p < 0 then found == original
    else if edits[p].action.Delete? then found.None?
    else found.Some? && Stores(found.value, edits, p, scope, clock, k, original)
  }

  lemma {:induction false} NothingOn(edits: seq<Edit>, k: Key)
    requires LastValid(edits, k) < 0
    ensures Writes(edits, k) == 0 && !Wiped(edits, k)
    decreases |edits|
  {
    if edits != [] {
      NothingOn(edits[..|edits| - 1], k);
      assert edits == edits[..|edits| - 1] + [edits[|edits| - 1]];
      WipedOneMore(edits[..|edits| - 1], edits[|edits| - 1], k);
    }
  }

  lemma {:induction false} DeletedLast(edits: seq<Edit>, k: Key)
    requires LastValid(edits, k) >= 0 && edits[LastValid(edits, k)].action.Delete?
    ensures Writes(edits, k) == 0 && Wiped(edits, k)
    decreases |edits|
  {
    var n := |edits| - 1;
    if On(edits[n], k) {
      assert edits[n].action.Delete?;
    } else {
      DeletedLast(edits[..n], k);
      assert edits == edits[..n] + [edits[n]];
      WipedOneMore(edits[..n], edits[n], k);
    }
  }

  /** A valid edit names its key: the id it writes under is never empty. */
  lemma ValidHasId(edit: Edit)
    requires Valid(edit)
    ensures ComputedId(edit) != ""
  {
  }

  /** One more edit, written over what the key held. */
  lemma WriteStores(edits: seq<Edit>, edit: Edit, scope: string, clock: nat -> string, k: Key, original: Option<Entry>,
                    held: Option<Entry>)
    requires On(edit, k) && !edit.action.Delete? && Holds(held, edits, scope, clock, k, original)
    ensures var e := Written(edit, k.id, OrNone(held), scope, clock(|edits|));
      Stores(e, edits + [edit], |edits|, scope, clock, k, original)
  {
    var all := edits + [edit];
    assert all[..|edits|] == edits && all[|edits|] == edit;
    WipedOneMore(edits, edit, k);
    ValidHasId(edit);
    if LastValid(edits, k) < 0 {
      NothingOn(edits, k);
    } else if edits[LastValid(edits, k)].action.Delete? {
      DeletedLast(edits, k);
    }
  }

  lemma PassedOver(edits: seq<Edit>, edit: Edit, scope: string, clock: nat -> string, k: Key, original: Option<Entry>,
                   held: Option<Entry>)
    requires !On(edit, k) && Holds(held, edits, scope, clock, k, original)
    ensures Holds(held, edits + [edit], scope, clock, k, original)
  {
    var all := edits + [edit];
    assert all[..|edits|] == edits && all[|edits|] == edit;
    WipedOneMore(edits, edit, k);
  }

  /**
   After any proposal: a key without a valid edit holds what it held; one whose last valid edit is a delete holds
   nothing; any other holds the texts of its last valid edit, with a version that counts the writes since the key was
   created, and the time of that creation.
   */
  lemma {:induction false} EntryIs(entries: Entries, edits: seq<Edit>, scope: string, clock: nat -> string, k: Key)
    ensures Holds(Get(Apply(entries, edits, scope, clock).entries, k), edits, scope, clock, k, Get(entries, k))
    decreases |edits|
  {
    if edits != [] {
      var n := |edits| - 1;
      var before, edit := edits[..n], edits[n];
      assert edits == before + [edit];
      EntryIs(entries, before, scope, clock, k);
      var done := Apply(entries, before, scope, clock);
      GetAfterEdit(done.entries, Carried(done.entries, edit, scope, clock(n)), k);
      if !On(edit, k) {
        PassedOver(before, edit, scope, clock, k, Get(entries, k), Get(done.entries, k));
      } else if !edit.action.Delete? {
        WriteStores(before, edit, scope, clock, k, Get(entries, k), Get(done.entries, k));
      }
    }
  }

  // ---------------------------------------------------------------------------
  // What validation is for.

  /** The reference names a Python callable: its type, where to import it from, and what to call. */
  predicate CallsPython(reference: Record) {
    && "type" in reference && reference["type"] == Text("python")
    && (forall field :: field in {"import", "callable"} ==>
      field in reference && reference[field] != Null && reference[field] != Text(""))
  }

  /** An entry has a known kind, a title and content, and a skill calls Python. */
  predicate Usable(e: Entry) {
    && !e.kind.OtherKind? && e.title != "" && e.content != ""
    && (e.kind.Skill? ==> CallsPython(e.reference))
  }

  /** No proposal, whatever its edits, leaves an unusable entry where there was none. */
  lemma EntriesStayUsable(entries: Entries, edits: seq<Edit>, scope: string, clock: nat -> string, k: Key)
    requires Get(entries, k).Some? ==> Usable(Get(entries, k).value)
    ensures var found := Get(Apply(entries, edits, scope, clock).entries, k);
      found.Some? ==> Usable(found.value)
  {
    EntryIs(entries, edits, scope, clock, k);
    var p := LastValid(edits, k);
    if p >= 0 && !edits[p].action.Delete? {
      assert Valid(edits[p]);
    }
  }

  /** Exactly the edits that make sense are carried out. */
  lemma ValidIff(edit: Edit)
    ensures Valid(edit) <==>
      && !edit.action.OtherAction? && !edit.kind.OtherKind?
      && !(edit.kind.Prompt? && (edit.id == "base_system_prompt" || ComputedId(edit) == "base_system_prompt"))
      && (edit.id == "" ==> edit.action.Create?)
      && (edit.action.Create? || edit.action.Update? ==>
           && edit.title != "" && edit.content != ""
           && (edit.kind.Skill? ==>
                edit.arguments.Some? && edit.reference.Some? && CallsPython(edit.reference.value)))
  {
    if edit.reference.Some? {
      CallsPythonIff(edit.reference.value);
    }
  }

  lemma CallsPythonIff(reference: Record)
    ensures CallsPython(reference) <==>
      && "type" in reference && reference["type"] == Text("python")
      && Names(reference, "import") && Names(reference, "callable")
  {
    if Names(reference, "import") && Names(reference, "callable") {
      forall field | field in {"import", "callable"}
        ensures field in reference && reference[field] != Null && reference[field] != Text("")
      {
        assert Names(reference, field);
      }
    }
  }

  // ---------------------------------------------------------------------------
  // The ids made from titles.

  /** Lower-case letters, digits and underscores. */
  predicate Slugged(s: string) {
    forall i :: 0 <= i < |s| ==> 'a' <= s[i] <= 'z' || '0' <= s[i] <= '9' || s[i] == '_'
  }

  lemma {:induction false} TrimmedLeft(s: string)
    ensures var t := TrimLeft(s); |t| <= |s| && t == s[|s| - |t|..] && (t != "" ==> t[0] != '_')
    ensures s != "" && s[0] != '_' ==> TrimLeft(s) == s
  {
    if s != "" && s[0] == '_' {
      TrimmedLeft(s[1..]);
    }
  }

  lemma {:induction false} TrimmedRight(s: string)
    ensures var t := TrimRight(s); t <= s && (t != "" ==> t[|t| - 1] != '_')
    ensures s != "" && s[|s| - 1] != '_' ==> TrimRight(s) == s
  {
    if s != "" && s[|s| - 1] == '_' {
      TrimmedRight(s[..|s| - 1]);
    }
  }

  /** An id made from a title is a slug of at most 80 characters that does not start with an underscore. */
  lemma SlugShape(raw: string, fallback: string)
    ensures var s := Slug(raw, fallback);
      s == fallback || (Slugged(s) && 0 < |s| <= 80 && s[0] != '_')
  {
    var mapped := seq(|raw|, i requires 0 <= i < |raw| => SlugChar(raw[i]));
    assert Slugged(mapped);
    TrimmedLeft(mapped);
    TrimmedRight(TrimLeft(mapped));
  }

  /** A slug is its own slug exactly when it does not end in an underscore, as one that was cut at 80 may. */
  lemma SlugAgainIff(s: string, fallback: string)
    requires Slugged(s) && 0 < |s| <= 80 && s[0] != '_' && s != fallback
    ensures Slug(s, fallback) == s <==> s[|s| - 1] != '_'
  {
    assert seq(|s|, i requires 0 <= i < |s| => SlugChar(s[i])) == s;
    TrimmedLeft(s);
    TrimmedRight(s);
  }

  predicate AsciiLetterOrDigit(c: char) {
    'a' <= c <= 'z' || 'A' <= c <= 'Z' || '0' <= c <= '9'
  }

  /** The text in small letters, with underscores for whatever is neither letter nor digit. */
  predicate Underscored(raw: string, s: string) {
    |raw| == |s| && forall i :: 0 <= i < |s| ==>
      if !AsciiLetterOrDigit(raw[i]) then s[i] == '_'
      else if 'A' <= raw[i] <= 'Z' then s[i] as int == raw[i] as int + 32
      else s[i] == raw[i]
  }

  /** A title has the slug of that text: without the underscores around it, and cut at 80. */
  lemma SlugOfTitle(raw: string, s: string, a: nat, b: nat, fallback: string)
    requires Underscored(raw, s) && a < b <= |s| && s[a] != '_' && s[b - 1] != '_'
    requires forall i :: 0 <= i < |s| && (i < a || b <= i) ==> s[i] == '_'
    ensures Slug(raw, fallback) == if b - a > 80 then s[a..a + 80] else s[a..b]
  {
    assert seq(|raw|, i requires 0 <= i < |raw| => SlugChar(raw[i])) == s;
    CutLeft(s, a);
    CutRight(s[a..], b - a);
    assert s[a..][..b - a] == s[a..b];
  }

  lemma {:induction false} CutLeft(s: string, a: nat)
    requires a < |s| && s[a] != '_' && forall i :: 0 <= i < a ==> s[i] == '_'
    ensures TrimLeft(s) == s[a..]
  {
    if a > 0 {
      CutLeft(s[1..], a - 1);
    }
  }

  lemma {:induction false} CutRight(s: string, n: nat)
    requires 0 < n <= |s| && s[n - 1] != '_' && forall i :: n <= i < |s| ==> s[i] == '_'
    ensures TrimRight(s) == s[..n]
  {
    if n < |s| {
      CutRight(s[..|s| - 1], n);
    }
  }
}
