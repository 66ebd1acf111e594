/** internal/harness: the entries of a continual harness, the edits proposed to them, and what undoes an edit. */
module HarnessSpec {
  import opened Wrappers

  datatype Action = Create | Update | Delete | OtherAction(name: string)
  datatype Kind = Prompt | Memory | Skill | Subagent | OtherKind(name: string)

  /** A value of a free-form record. */
  datatype Value = Null | Text(text: string) | Other(json: string)
  type Record = map<string, Value>

  datatype Entry = Entry(
    id: string, kind: Kind, title: string, content: string, path: string, scope: string,
    reference: Record, arguments: Record, metadata: Record,
    source: string, createdAt: string, updatedAt: string, version: int)

  /** What a missing map key yields. */
  const NO_ENTRY := Entry("", OtherKind(""), "", "", "", "", map[], map[], map[], "", "", "", 0)

  datatype Edit = Edit(
    action: Action, kind: Kind, id: string, title: string, content: string, path: string,
    reference: Option<Record>, arguments: Option<Record>, metadata: Option<Record>, reason: string)

  datatype Flaw =
    | UnsupportedAction | UnsupportedKind | BasePromptIsFixed | NeedsId | NeedsTitleAndContent
    | NeedsArguments | NeedsReference | ReferenceNotPython | NeedsImport | NeedsCallable

  /** An edit as carried out: `id` is the one computed for it. */
  datatype AppliedEdit = AppliedEdit(
    edit: Edit, id: string, before: Option<Entry>, after: Option<Entry>, applied: bool, error: Option<Flaw>)

  type Entries = map<Kind, map<string, Entry>>

  datatype Key = Key(kind: Kind, id: string)

  function Get(entries: Entries, k: Key): Option<Entry> {
    if k.kind in entries && k.id in entries[k.kind] then Some(entries[k.kind][k.id]) else None
  }

  // ---------------------------------------------------------------------------
  // Validation.

  const BASE_PROMPT := "base_system_prompt"

  function SlugChar(c: char): char {
    if 'a' <= c <= 'z' || '0' <= c <= '9' then c
    else if 'A' <= c <= 'Z' then (c as int + 32) as char
    else '_'
  }

  function TrimLeft(s: string): string {
    if s != "" && s[0] == '_' then TrimLeft(s[1..]) else s
  }

  function TrimRight(s: string): string {
    if s != "" && s[|s| - 1] == '_' then TrimRight(s[..|s| - 1]) else s
  }

  function Slug(raw: string, fallback: string): string {
    var s := TrimRight(TrimLeft(seq(|raw|, i requires 0 <= i < |raw| => SlugChar(raw[i]))));
    var cut := if |s| > 80 then s[..80] else s;
    if cut == "" then fallback else cut
  }

  function KindName(kind: Kind): string {
    match kind
    case Prompt => "prompt"
    case Memory => "memory"
    case Skill => "skill"
    case Subagent => "subagent"
    case OtherKind(name) => name
  }

  /** The id of an edit: creates without one take the slug of their title. */
  function ComputedId(edit: Edit): string {
    if edit.id == "" && edit.action.Create? then Slug(edit.title, KindName(edit.kind)) else edit.id
  }

  predicate Names(reference: Record, field: string) {
    field in reference && reference[field] != Null && reference[field] != Text("")
  }

  function ValidateEdit(edit: Edit, computedId: string): Option<Flaw> {
    if edit.action.OtherAction? then Some(UnsupportedAction)
    else if edit.kind.OtherKind? then Some(UnsupportedKind)
    else if edit.kind.Prompt? && (edit.id == BASE_PROMPT || computedId == BASE_PROMPT) then Some(BasePromptIsFixed)
    else if !edit.action.Create? && edit.id == "" then Some(NeedsId)
    else if !edit.action.Delete? && (edit.title == "" || edit.content == "") then Some(NeedsTitleAndContent)
    else if !edit.action.Delete? && edit.kind.Skill? then
      if edit.arguments.None? then Some(NeedsArguments)
      else if edit.reference.None? then Some(NeedsReference)
      else if !("type" in edit.reference.value && edit.reference.value["type"] == Text("python")) then
        Some(ReferenceNotPython)
      else if !Names(edit.reference.value, "import") then Some(NeedsImport)
      else if !Names(edit.reference.value, "callable") then Some(NeedsCallable)
      else None
    else None
  }

  // ---------------------------------------------------------------------------
  // Applying.

  function OrEmpty(r: Option<Record>): Record {
    if r.None? then map[] else r.value
  }

  function Before(entries: Entries, k: Key): Entry {
    if Get(entries, k).None? then NO_ENTRY else Get(entries, k).value
  }

  function Written(edit: Edit, id: string, existing: Entry, scope: string, now: string): Entry {
    Entry(id, edit.kind, edit.title, edit.content, edit.path, scope,
          OrEmpty(edit.reference), OrEmpty(edit.arguments), OrEmpty(edit.metadata),
          "refine", if existing.id != "" then existing.createdAt else now, now,
          if existing.id != "" then existing.version + 1 else 1)
  }

  function Put(entries: Entries, k: Key, e: Entry): Entries {
    entries[k.kind := (if k.kind in entries then entries[k.kind] else map[])[k.id := e]]
  }

  function Drop(entries: Entries, k: Key): Entries {
    entries[k.kind := (if k.kind in entries then entries[k.kind] else map[]) - {k.id}]
  }

  function Carried(entries: Entries, edit: Edit, scope: string, now: string): AppliedEdit {
    var id := ComputedId(edit);
    var flaw := ValidateEdit(edit, id);
    var existing := Before(entries, Key(edit.kind, id));
    if flaw.Some? then AppliedEdit(edit, id, None, None, false, flaw)
    else if edit.action.Delete? then AppliedEdit(edit, id, Some(existing), None, true, None)
    else AppliedEdit(edit, id, Some(existing), Some(Written(edit, id, existing, scope, now)), true, None)
  }

  function KeyOf(a: AppliedEdit): Key {
    Key(a.edit.kind, a.id)
  }

  function AfterEdit(entries: Entries, a: AppliedEdit): Entries {
    if !a.applied then entries
    else if a.after.Some? then Put(entries, KeyOf(a), a.after.value)
    else Drop(entries, KeyOf(a))
  }

  datatype Outcome = Outcome(entries: Entries, edits: seq<AppliedEdit>)

  /** The entries and the per-edit results after the edits, the clock giving the time of each. */
  function Apply(entries: Entries, edits: seq<Edit>, scope: string, clock: nat -> string): (r: Outcome)
    ensures |r.edits| == |edits|
    decreases |edits|
  {
    if edits == [] then Outcome(entries, [])
    else
      var n := |edits| - 1;
      var done := Apply(entries, edits[..n], scope, clock);
      var a := Carried(done.entries, edits[n], scope, clock(n));
      Outcome(AfterEdit(done.entries, a), done.edits + [a])
  }

  // ---------------------------------------------------------------------------
  // Rolling back.

  /** Whether rolling back this edit does anything. */
  predicate Undoes(a: AppliedEdit) {
    a.applied && (a.edit.action.Create? || ((a.edit.action.Update? || a.edit.action.Delete?) && a.before.Some?))
  }

  function Restored(before: Entry, now: string): Entry {
    before.(updatedAt := now, version := before.version + 1)
  }

  function Plain(action: Action, kind: Kind, id: string, title: string, content: string): Edit {
    Edit(action, kind, id, title, content, "", None, None, None, "")
  }

  /** The edit a rollback reports for having undone `a`. */
  function Reverse(a: AppliedEdit, now: string): AppliedEdit
    requires Undoes(a)
  {
    if a.edit.action.Create? then
      AppliedEdit(Plain(Delete, a.edit.kind, a.id, a.edit.title, ""), a.id, a.after, None, true, None)
    else
      var e := Restored(a.before.value, now);
      if a.edit.action.Update? then
        AppliedEdit(Plain(Update, a.edit.kind, a.id, e.title, e.content), a.id, a.after, Some(e), true, None)
      else
        AppliedEdit(Plain(Create, a.edit.kind, a.id, e.title, e.content), a.id, None, Some(e), true, None)
  }

  /** Rolls back in the order the edits were applied; a kind without any map is passed over. */
  function Undo(entries: Entries, edits: seq<AppliedEdit>, clock: nat -> string): Outcome
    decreases |edits|
  {
    if edits == [] then Outcome(entries, [])
    else
      var n := |edits| - 1;
      var done := Undo(entries, edits[..n], clock);
      var a := edits[n];
      if !Undoes(a) || a.edit.kind !in done.entries then done
      else
        var b := Reverse(a, clock(n));
        Outcome(AfterEdit(done.entries, b), done.edits + [b])
  }
}
