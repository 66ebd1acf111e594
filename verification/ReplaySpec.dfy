/** The transcript records that matter to replay, and what each one does to the replayer's view. */
module ReplaySpec {
  import opened Wrappers
  import opened SlotOrder
  import opened Compose

  datatype Record =
    | SectionAdded(name: string, slot: int, content: string)
    | SectionRemoved(name: string)
    | MessageAppended(id: string, parentId: string)
    | SessionCompacted(summaryId: string)
    | InferenceRequested(system: Option<string>, ids: seq<string>)

  datatype SectionEntry = SectionEntry(slot: int, content: string, order: nat)

  datatype Node = Node(id: string, parentId: string)

  /** One verdict per request and field: does replay reproduce what the request claims? */
  datatype Check = SystemCheck(ok: bool) | MessageIdsCheck(ok: bool)

  datatype View = View(
    seqNo: nat,
    sections: map<string, SectionEntry>,
    messages: map<string, Node>,
    order: seq<string>,
    boundaryId: string,
    integrity: seq<Check>)

  const EMPTY_VIEW := View(0, map[], map[], [], "", [])

  // ---------------------------------------------------------------------------
  // Sections.

  function SectionKeys(sections: map<string, SectionEntry>): map<string, Key> {
    map n | n in sections :: Key(sections[n].slot, sections[n].order)
  }

  ghost predicate Numbered(v: View) {
    && (forall n :: n in v.sections ==> v.sections[n].order <= v.seqNo)
    && (forall m, n :: m in v.sections && n in v.sections && m != n ==> v.sections[m].order != v.sections[n].order)
  }

  function Contents(sections: map<string, SectionEntry>, names: seq<string>): seq<string>
    requires forall n :: n in names ==> n in sections
  {
    seq(|names|, i requires 0 <= i < |names| => sections[names[i]].content)
  }

  ghost function SectionOrder(v: View): (names: seq<string>)
    requires Numbered(v)
    ensures InOrder(names, SectionKeys(v.sections))
  {
    RenderOrder(SectionKeys(v.sections))
  }

  ghost function ComposedSystem(v: View): string
    requires Numbered(v)
  {
    Composed(Contents(v.sections, SectionOrder(v)))
  }

  // ---------------------------------------------------------------------------
  // Messages.

  ghost predicate WellLinked(v: View) {
    && (forall i :: 0 <= i < |v.order| ==> v.order[i] in v.messages)
    && (forall id :: id in v.messages ==> v.messages[id].id == id)
  }

  ghost predicate HasChild(v: View, id: string)
    requires WellLinked(v)
  {
    id != "" && exists i :: 0 <= i < |v.order| && v.messages[v.order[i]].parentId == id
  }

  /** The latest appended message that is nobody's parent, among the first `n`. */
  ghost function LastLeaf(v: View, n: nat): string
    requires WellLinked(v) && n <= |v.order|
  {
    if n == 0 then "" else if !HasChild(v, v.order[n - 1]) then v.order[n - 1] else LastLeaf(v, n - 1)
  }

  ghost function Leaf(v: View): string
    requires WellLinked(v) && v.order != []
  {
    var leaf := LastLeaf(v, |v.order|);
    if leaf == "" then v.order[|v.order| - 1] else leaf
  }

  /** The parents from `cur` upward, up to the compaction boundary, a root, a missing message, or a repetition. */
  ghost function Trail(v: View, cur: string, seen: set<string>): (ids: seq<string>)
    decreases v.messages.Keys - seen
  {
    if cur == "" || cur in seen || cur !in v.messages then []
    else if v.boundaryId != "" && cur == v.boundaryId then [cur]
    else [cur] + Trail(v, v.messages[cur].parentId, seen + {cur})
  }

  function Reversed(s: seq<string>): (r: seq<string>)
    ensures |r| == |s| && forall i :: 0 <= i < |s| ==> r[i] == s[|s| - 1 - i]
  {
    if s == [] then [] else Reversed(s[1..]) + [s[0]]
  }

  /** The active chain, oldest first. */
  ghost function ActiveIds(v: View): seq<string>
    requires WellLinked(v)
  {
    if v.order == [] then [] else Reversed(Trail(v, Leaf(v), {}))
  }

  function Named(ids: seq<string>): seq<string> {
    if ids == [] then [] else Named(ids[..|ids| - 1]) + if ids[|ids| - 1] != "" then [ids[|ids| - 1]] else []
  }

  // ---------------------------------------------------------------------------
  // One record.

  ghost predicate Sound(v: View) {
    Numbered(v) && WellLinked(v)
  }

  ghost function Apply(v: View, r: Record): (w: View)
    requires Sound(v)
    ensures Sound(w)
  {
    match r
    case SectionAdded(name, slot, content) =>
      if name in v.sections then v.(sections := v.sections[name := SectionEntry(slot, content, v.sections[name].order)])
      else
        var w := v.(seqNo := v.seqNo + 1, sections := v.sections[name := SectionEntry(slot, content, v.seqNo + 1)]);
        assert forall n :: n in w.sections ==> n == name || n in v.sections;
        w
    case SectionRemoved(name) => v.(sections := v.sections - {name})
    case MessageAppended(id, parentId) => v.(messages := v.messages[id := Node(id, parentId)], order := v.order + [id])
    case SessionCompacted(summaryId) => v.(boundaryId := summaryId)
    case InferenceRequested(system, ids) =>
      v.(integrity := v.integrity + [
        SystemCheck(system.None? || system.value == ComposedSystem(v)),
        MessageIdsCheck(|ids| == 0 || ids == Named(ActiveIds(v)))])
  }

  ghost function Replay(v: View, rs: seq<Record>): (w: View)
    requires Sound(v)
    ensures Sound(w)
    decreases |rs|
  {
    if rs == [] then v else Apply(Replay(v, rs[..|rs| - 1]), rs[|rs| - 1])
  }
}
