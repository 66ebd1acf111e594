/**
 The transcript between the agent and replay: internal/session/recorder.go turns the agent's events into
 parent-linked records, and replay recovers from them the chain the agent held at each inference.
 */
module TranscriptReplay {
  import opened Wrappers
  import opened Messages
  import opened ChainEvents
  import opened ReplaySpec

  /** A message that serializes to no content block is not recorded. */
  predicate HasBlocks(m: Message) {
    match m.role
    case User => m.result.Some? || m.content != ""
    case Assistant => m.thinking != "" || m.content != "" || m.calls != []
    case Notice => false
  }

  function Ids(chain: seq<Message>): (ids: seq<string>)
    ensures |ids| == |chain|
  {
    seq(|chain|, i requires 0 <= i < |chain| => chain[i].id)
  }

  /** The recorder's output so far, and the id it will give the next message as its parent. */
  datatype Log = Log(records: seq<Record>, last: string)

  function Logged(l: Log, e: Event, system: Option<string>): Log {
    match e
    case Appended(m) =>
      if m.id == "" || !HasBlocks(m) then l else Log(l.records + [MessageAppended(m.id, l.last)], m.id)
    case Compacted(id) => if id == "" then l else l.(records := l.records + [SessionCompacted(id)])
    case Requested(chain) => l.(records := l.records + [InferenceRequested(system, Ids(chain))])
  }

  class Recorder {
    var lastMessageId: string
    var records: seq<Record>

    constructor ()
      ensures State() == Log([], "")
    {
      lastMessageId, records := "", [];
    }

    ghost function State(): Log
      reads this
    {
      Log(records, lastMessageId)
    }

    method OnAgentEvent(e: Event, system: Option<string>)
      modifies this
      ensures State() == Logged(old(State()), e, system)
    {
      match e {
        case Appended(m) => OnAppend(m);
        case Compacted(id) => OnCompact(id);
        case Requested(chain) => records := records + [InferenceRequested(system, Ids(chain))];
      }
    }

    method OnAppend(m: Message)
      modifies this
      ensures State() == Logged(old(State()), Appended(m), None)
    {
      if m.id == "" || !HasBlocks(m) {
        return;
      }
      var parent := lastMessageId;
      lastMessageId := m.id;
      records := records + [MessageAppended(m.id, parent)];
    }

    method OnCompact(id: string)
      modifies this`records
      ensures State() == Logged(old(State()), Compacted(id), None)
    {
      if id == "" {
        return;
      }
      records := records + [SessionCompacted(id)];
    }
  }

  /** The transcript of `events`; `systems` gives the prompt digest of the request at each position. */
  function Transcript(events: seq<Event>, systems: nat -> Option<string>): Log
    decreases |events|
  {
    if events == [] then Log([], "")
    else var n := |events| - 1; Logged(Transcript(events[..n], systems), events[n], systems(n))
  }

  /** Ids are never empty and never reused. */
  ghost predicate Identified(events: seq<Event>) {
    && (forall i :: 0 <= i < |events| && events[i].Appended? ==> events[i].m.id != "")
    && (forall i, j :: 0 <= i < j < |events| && events[i].Appended? && events[j].Appended? ==>
      events[i].m.id != events[j].m.id)
  }

  /** The ids of the chain messages that reached the transcript. */
  function Shown(chain: seq<Message>): (ids: seq<string>)
    decreases |chain|
  {
    if chain == [] then []
    else var n := |chain| - 1; Shown(chain[..n]) + if HasBlocks(chain[n]) then [chain[n].id] else []
  }

  // ---------------------------------------------------------------------------
  // Walking parents, on any records whatsoever.

  predicate IsPath(v: View, ids: seq<string>) {
    && (forall i :: 0 <= i < |ids| ==> ids[i] in v.messages)
    && (forall i :: 0 <= i < |ids| - 1 ==> ids[i + 1] == v.messages[ids[i]].parentId)
  }

  predicate Duplicates(ids: seq<string>) {
    exists i, j :: 0 <= i < j < |ids| && ids[i] == ids[j]
  }

  /** Where a walk that has collected `ids` and would go on at `next` is over. */
  predicate Over(v: View, ids: seq<string>, next: string) {
    || next == "" || next !in v.messages || next in ids
    || (ids != [] && v.boundaryId != "" && ids[|ids| - 1] == v.boundaryId)
  }

  lemma {:induction false} TrailFrom(v: View, cur: string, seen: set<string>)
    ensures var ids := Trail(v, cur, seen);
      && IsPath(v, ids) && !Duplicates(ids)
      && (ids != [] ==> ids[0] == cur)
      && (forall i :: 0 <= i < |ids| ==> ids[i] !in seen)
      && (v.boundaryId != "" ==> forall i :: 0 <= i < |ids| - 1 ==> ids[i] != v.boundaryId)
    decreases v.messages.Keys - seen
  {
    if !(cur == "" || cur in seen || cur !in v.messages) && !(v.boundaryId != "" && cur == v.boundaryId) {
      var parent := v.messages[cur].parentId;
      TrailFrom(v, parent, seen + {cur});
      var rest := Trail(v, parent, seen + {cur});
      var ids := [cur] + rest;
      assert forall i :: 0 < i < |ids| ==> ids[i] == rest[i - 1];
      assert forall i :: 0 < i < |ids| ==> ids[i] != cur;
    }
  }

  lemma {:induction false} TrailStops(v: View, cur: string, seen: set<string>)
    ensures var ids := Trail(v, cur, seen);
      || (ids == [] && (cur == "" || cur !in v.messages || cur in seen))
      || (ids != [] && (
            var last := ids[|ids| - 1];
            && last in v.messages
            && (Over(v, ids, v.messages[last].parentId) || v.messages[last].parentId in seen)))
    decreases v.messages.Keys - seen
  {
    if !(cur == "" || cur in seen || cur !in v.messages) && !(v.boundaryId != "" && cur == v.boundaryId) {
      TrailStops(v, v.messages[cur].parentId, seen + {cur});
      var rest := Trail(v, v.messages[cur].parentId, seen + {cur});
      var ids := [cur] + rest;
      if rest != [] {
        assert ids[|ids| - 1] == rest[|rest| - 1];
        assert forall x :: x in rest ==> x in ids;
        assert cur in ids;
      } else {
        assert ids == [cur];
      }
    }
  }

  /**
   Cyclic, dangling or not, the walk from any message is a duplicate-free parent path that starts there, passes no
   compaction boundary, and ends where it cannot go on.
   */
  lemma WalkIsAPath(v: View, cur: string)
    requires cur in v.messages && cur != ""
    ensures var ids := Trail(v, cur, {});
      && ids != [] && ids[0] == cur && IsPath(v, ids) && !Duplicates(ids)
      && Over(v, ids, v.messages[ids[|ids| - 1]].parentId)
      && (v.boundaryId != "" ==> forall i :: 0 <= i < |ids| - 1 ==> ids[i] != v.boundaryId)
  {
    TrailFrom(v, cur, {});
    TrailStops(v, cur, {});
  }

  // ---------------------------------------------------------------------------
  // Walking the parents the recorder wrote.

  /** What the walk sees at position `i` of a line whose chain starts at `k`. */
  predicate At(v: View, k: nat, i: nat)
    requires i < |v.order|
  {
    var id := v.order[i];
    && id != "" && id in v.messages && v.messages[id].parentId == Previous(v.order, i)
    && (i > k ==> id != v.boundaryId)
    && (i == k ==> v.boundaryId == id || (v.boundaryId == "" && i == 0))
  }

  predicate Different(ids: seq<string>) {
    forall i, j :: 0 <= i < j < |ids| ==> ids[i] != ids[j]
  }

  function Previous(ids: seq<string>, i: nat): string
    requires i <= |ids|
  {
    if i == 0 then "" else ids[i - 1]
  }

  function Downward(ids: seq<string>, k: nat, j: nat): seq<string>
    requires k <= j < |ids|
  {
    if j == k then [ids[k]] else [ids[j]] + Downward(ids, k, j - 1)
  }

  lemma {:induction false} ReversedDownward(ids: seq<string>, k: nat, j: nat)
    requires k <= j < |ids|
    ensures Reversed(Downward(ids, k, j)) == ids[k..j + 1]
    decreases j
  {
    if j > k {
      ReversedDownward(ids, k, j - 1);
      assert ([ids[j]] + Downward(ids, k, j - 1))[1..] == Downward(ids, k, j - 1);
      assert ids[k..j + 1] == ids[k..j] + [ids[j]];
    }
  }

  predicate Unseen(ids: seq<string>, j: nat, seen: set<string>)
    requires j < |ids|
  {
    forall i :: 0 <= i <= j ==> ids[i] !in seen
  }

  lemma {:induction false} TrailOnLine(v: View, k: nat, j: nat, seen: set<string>)
    requires k <= j < |v.order| && Different(v.order) && forall i :: k <= i <= j ==> At(v, k, i)
    requires Unseen(v.order, j, seen)
    ensures Trail(v, v.order[j], seen) == Downward(v.order, k, j)
    decreases j
  {
    assert At(v, k, j);
    if j == k {
      TrailEnds(v, v.order[j], seen);
    } else {
      UnseenBelow(v.order, j, seen);
      TrailOnLine(v, k, j - 1, seen + {v.order[j]});
      TrailGoesOn(v, v.order[j], seen);
    }
  }

  lemma UnseenBelow(ids: seq<string>, j: nat, seen: set<string>)
    requires 0 < j < |ids| && Different(ids) && Unseen(ids, j, seen)
    ensures Unseen(ids, j - 1, seen + {ids[j]})
  {
  }

  lemma TrailGoesOn(v: View, cur: string, seen: set<string>)
    requires cur != "" && cur !in seen && cur in v.messages && cur != v.boundaryId
    ensures Trail(v, cur, seen) == [cur] + Trail(v, v.messages[cur].parentId, seen + {cur})
  {
  }

  lemma TrailEnds(v: View, cur: string, seen: set<string>)
    requires cur != "" && cur !in seen && cur in v.messages
    requires cur == v.boundaryId || (v.boundaryId == "" && v.messages[cur].parentId == "")
    ensures Trail(v, cur, seen) == [cur]
  {
    assert Trail(v, "", seen + {cur}) == [];
  }

  /** The messages form one line, each the parent of the next, and the chain is what stands from position `k` on. */
  ghost predicate OneLine(v: View, last: string, k: nat) {
    && Different(v.order)
    && (forall i :: 0 <= i < |v.order| ==> At(v, k, i))
    && last == Previous(v.order, |v.order|)
    && (if v.order == [] then k == 0 && v.boundaryId == "" else k < |v.order|)
  }

  lemma LastIsLeaf(v: View, last: string, k: nat)
    requires OneLine(v, last, k) && WellLinked(v) && v.order != []
    ensures Leaf(v) == v.order[|v.order| - 1]
  {
    var n := |v.order| - 1;
    forall i | 0 <= i < |v.order| ensures v.messages[v.order[i]].parentId != v.order[n] {
      assert At(v, k, i) && At(v, k, n);
      assert i > 0 ==> v.order[i - 1] != v.order[n];
    }
  }

  lemma ActiveOnLine(v: View, last: string, k: nat)
    requires OneLine(v, last, k) && WellLinked(v)
    ensures ActiveIds(v) == v.order[k..]
  {
    if v.order != [] {
      var j := |v.order| - 1;
      LastIsLeaf(v, last, k);
      TrailOnLine(v, k, j, {});
      ReversedDownward(v.order, k, j);
      assert v.order[k..j + 1] == v.order[k..];
    }
  }

  // ---------------------------------------------------------------------------
  // The records of an agent's events.

  lemma LineGrows(v: View, last: string, k: nat, id: string, w: View)
    requires OneLine(v, last, k) && id != "" && id !in v.order
    requires w.order == v.order + [id] && w.messages == v.messages[id := Node(id, last)] && w.boundaryId == v.boundaryId
    requires v.boundaryId != id
    ensures OneLine(w, id, k) && w.order[k..] == v.order[k..] + [id]
  {
    forall i | 0 <= i < |w.order| ensures At(w, k, i) {
      if i < |v.order| {
        assert At(v, k, i);
      }
    }
  }

  lemma LineCompacts(v: View, last: string, k: nat, w: View)
    requires OneLine(v, last, k) && v.order != []
    requires w.order == v.order && w.messages == v.messages && w.boundaryId == last
    ensures OneLine(w, last, |v.order| - 1) && w.order[|v.order| - 1..] == [last]
  {
    var n := |v.order| - 1;
    forall i | 0 <= i < |w.order| ensures At(w, n, i) {
      assert At(v, k, i);
    }
    assert w.order[n..] == [last];
  }

  lemma OneMoreRecord(l: Log, r: Record)
    ensures Replay(EMPTY_VIEW, l.records + [r]) == Apply(Replay(EMPTY_VIEW, l.records), r)
  {
    assert (l.records + [r])[..|l.records|] == l.records;
  }

  /** What replay sees of a transcript: its view once every record is applied. */
  ghost function Seen(l: Log): (v: View)
    ensures Sound(v)
  {
    Replay(EMPTY_VIEW, l.records)
  }

  /** What the recorder and replay have in common after an agent's events. */
  ghost predicate InStep(v: View, last: string, k: nat, shown: seq<string>, known: set<string>) {
    OneLine(v, last, k) && v.order[k..] == shown && forall id :: id in v.order ==> id in known
  }

  lemma AppendedStaysInStep(l: Log, k: nat, shown: seq<string>, known: set<string>, m: Message, system: Option<string>)
    requires InStep(Seen(l), l.last, k, shown, known) && m.id != "" && m.id !in known && HasBlocks(m)
    ensures InStep(Seen(Logged(l, Appended(m), system)), m.id, k, shown + [m.id], known + {m.id})
  {
    OneMoreRecord(l, MessageAppended(m.id, l.last));
    var v, w := Seen(l), Seen(Logged(l, Appended(m), system));
    assert w == Apply(v, MessageAppended(m.id, l.last));
    assert w.order == v.order + [m.id] && w.boundaryId == v.boundaryId;
    assert v.order != [] ==> At(v, k, k);
    LineGrows(v, l.last, k, m.id, w);
  }

  lemma CompactedSets(l: Log, id: string, system: Option<string>)
    requires id != ""
    ensures Seen(Logged(l, Compacted(id), system)) == Seen(l).(boundaryId := id)
  {
    OneMoreRecord(l, SessionCompacted(id));
  }

  lemma CompactedStaysInStep(l: Log, k: nat, shown: seq<string>, known: set<string>, id: string, system: Option<string>)
    returns (k': nat)
    requires InStep(Seen(l), l.last, k, shown, known) && id == l.last && id != ""
    ensures InStep(Seen(Logged(l, Compacted(id), system)), id, k', [id], known)
  {
    var v, w := Seen(l), Seen(Logged(l, Compacted(id), system));
    CompactedSets(l, id, system);
    assert v.order != [];
    LineCompacts(v, l.last, k, w);
    k' := |v.order| - 1;
  }

  lemma RequestedStaysInStep(l: Log, k: nat, shown: seq<string>, known: set<string>, chain: seq<Message>,
                             system: Option<string>)
    requires InStep(Seen(l), l.last, k, shown, known)
    ensures InStep(Seen(Logged(l, Requested(chain), system)), l.last, k, shown, known)
  {
    OneMoreRecord(l, InferenceRequested(system, Ids(chain)));
    var v, w := Seen(l), Seen(Logged(l, Requested(chain), system));
    assert w.order == v.order && w.messages == v.messages && w.boundaryId == v.boundaryId;
    assert forall i :: 0 <= i < |v.order| ==> At(v, k, i) ==> At(w, k, i);
  }

  ghost function KnownIds(events: seq<Event>): set<string>
    decreases |events|
  {
    if events == [] then {}
    else
      var n := |events| - 1;
      KnownIds(events[..n]) + if events[n].Appended? then {events[n].m.id} else {}
  }

  lemma {:induction false} KnownIdsAre(events: seq<Event>, id: string)
    requires id in KnownIds(events)
    ensures exists i :: 0 <= i < |events| && events[i].Appended? && events[i].m.id == id
    decreases |events|
  {
    var n := |events| - 1;
    if id in KnownIds(events[..n]) {
      KnownIdsAre(events[..n], id);
      var i :| 0 <= i < n && events[..n][i].Appended? && events[..n][i].m.id == id;
      assert events[i].Appended?;
    }
  }

  lemma NewIdIsUnknown(events: seq<Event>)
    requires Identified(events) && events != [] && events[|events| - 1].Appended?
    ensures events[|events| - 1].m.id !in KnownIds(events[..|events| - 1])
  {
    var n, id := |events| - 1, events[|events| - 1].m.id;
    if id in KnownIds(events[..n]) {
      KnownIdsAre(events[..n], id);
    }
  }

  /** The last id given out is that of the last message appended, when that message had content. */
  lemma LastWasRecorded(events: seq<Event>, id: string, systems: nat -> Option<string>)
    requires events != [] && Summarizes(events[|events| - 1], id) && id != ""
    ensures Transcript(events, systems).last == id
    ensures Shown(ChainAfter([], events)[|ChainAfter([], events)| - 1..]) == [id]
  {
    var chain, m := ChainAfter([], events), events[|events| - 1].m;
    assert chain == ChainAfter([], events[..|events| - 1]) + [m];
    assert chain[|chain| - 1..] == [m];
    assert [m][..0] == [];
  }

  /** The same of a log: replaying it is in step with the agent. */
  ghost predicate Tracks(l: Log, k: nat, shown: seq<string>, known: set<string>) {
    forall v {:trigger InStep(v, l.last, k, shown, known)} :: v == Seen(l) ==> InStep(v, l.last, k, shown, known)
  }

  lemma TracksInStep(l: Log, k: nat, shown: seq<string>, known: set<string>)
    requires Tracks(l, k, shown, known)
    ensures InStep(Seen(l), l.last, k, shown, known)
  {
  }

  lemma InStepTracks(l: Log, k: nat, shown: seq<string>, known: set<string>)
    requires InStep(Seen(l), l.last, k, shown, known)
    ensures Tracks(l, k, shown, known)
  {
  }

  lemma {:induction false} RunStaysInStep(events: seq<Event>, systems: nat -> Option<string>) returns (k: nat)
    requires Identified(events) && Paired(events)
    ensures Tracks(Transcript(events, systems), k, Shown(ChainAfter([], events)), KnownIds(events))
    decreases |events|
  {
    if events == [] {
      k := 0;
    } else {
      var n := |events| - 1;
      k := RunStaysInStep(events[..n], systems);
      k := EventStaysInStep(events, systems, k);
    }
  }

  /** One more event, on each of the three things that are followed. */
  lemma Unrolled(events: seq<Event>, systems: nat -> Option<string>)
    requires events != []
    ensures var n := |events| - 1;
      var before, e := events[..n], events[n];
      && Transcript(events, systems) == Logged(Transcript(before, systems), e, systems(n))
      && KnownIds(events) == (if e.Appended? then KnownIds(before) + {e.m.id} else KnownIds(before))
      && (e.Appended? ==> ChainAfter([], events) == ChainAfter([], before) + [e.m])
      && (e.Requested? ==> ChainAfter([], events) == ChainAfter([], before))
  {
  }

  lemma AppendedCase(l: Log, k: nat, chain: seq<Message>, known: set<string>, m: Message, system: Option<string>)
    requires Tracks(l, k, Shown(chain), known) && m.id != "" && m.id !in known
    ensures Tracks(Logged(l, Appended(m), system), k, Shown(chain + [m]), known + {m.id})
  {
    TracksInStep(l, k, Shown(chain), known);
    assert (chain + [m])[..|chain|] == chain;
    if HasBlocks(m) {
      AppendedStaysInStep(l, k, Shown(chain), known, m, system);
    }
  }

  lemma CompactedCase(l: Log, k: nat, shown: seq<string>, known: set<string>, id: string, system: Option<string>)
    returns (k': nat)
    requires Tracks(l, k, shown, known) && id == l.last && id != ""
    ensures Tracks(Logged(l, Compacted(id), system), k', [id], known)
  {
    TracksInStep(l, k, shown, known);
    k' := CompactedStaysInStep(l, k, shown, known, id, system);
    InStepTracks(Logged(l, Compacted(id), system), k', [id], known);
  }

  lemma RequestedCase(l: Log, k: nat, shown: seq<string>, known: set<string>, chain: seq<Message>,
                      system: Option<string>)
    requires Tracks(l, k, shown, known)
    ensures Tracks(Logged(l, Requested(chain), system), k, shown, known)
  {
    TracksInStep(l, k, shown, known);
    RequestedStaysInStep(l, k, shown, known, chain, system);
  }

  lemma EventStaysInStep(events: seq<Event>, systems: nat -> Option<string>, k: nat) returns (k': nat)
    requires events != [] && Identified(events) && Paired(events)
    requires var before := events[..|events| - 1];
      Tracks(Transcript(before, systems), k, Shown(ChainAfter([], before)), KnownIds(before))
    ensures Tracks(Transcript(events, systems), k', Shown(ChainAfter([], events)), KnownIds(events))
  {
    var n := |events| - 1;
    var before, e := events[..n], events[n];
    var l, chain, known := Transcript(before, systems), ChainAfter([], before), KnownIds(before);
    k' := k;
    Unrolled(events, systems);
    match e
    case Appended(m) =>
      NewIdIsUnknown(events);
      AppendedCase(l, k, chain, known, m, systems(n));
    case Compacted(id) =>
      SummaryIsAll(events, systems);
      k' := CompactedCase(l, k, Shown(chain), known, id, systems(n));
    case Requested(asked) =>
      RequestedCase(l, k, Shown(chain), known, asked, systems(n));
  }

  /** A compaction leaves the chain with the summary recorded just before it. */
  lemma SummaryIsAll(events: seq<Event>, systems: nat -> Option<string>)
    requires events != [] && Identified(events) && Paired(events) && events[|events| - 1].Compacted?
    ensures var before, id := events[..|events| - 1], events[|events| - 1].summaryId;
      id != "" && Transcript(before, systems).last == id && Shown(ChainAfter([], events)) == [id]
  {
    var n := |events| - 1;
    SummaryPrecedes(events);
    LastWasRecorded(events[..n], events[n].summaryId, systems);
  }

  lemma SummaryPrecedes(events: seq<Event>)
    requires events != [] && Identified(events) && Paired(events) && events[|events| - 1].Compacted?
    ensures var before, id := events[..|events| - 1], events[|events| - 1].summaryId;
      before != [] && Summarizes(before[|before| - 1], id) && id != ""
  {
    var n := |events| - 1;
    assert events[n].Compacted?;
    assert events[n - 1].Appended?;
  }

  // ---------------------------------------------------------------------------
  // What replay recovers.

  /** Replay's active messages are the agent's chain, less what has no content to record. */
  lemma ReplayFindsTheChain(events: seq<Event>, chain: seq<Message>, systems: nat -> Option<string>)
    requires Identified(events) && Story([], events, chain)
    ensures ActiveIds(Seen(Transcript(events, systems))) == Shown(chain)
  {
    var l := Transcript(events, systems);
    var k := RunStaysInStep(events, systems);
    TracksInStep(l, k, Shown(chain), KnownIds(events));
    ActiveOnLine(Seen(l), l.last, k);
  }

  predicate AllHaveBlocks(chain: seq<Message>) {
    forall i :: 0 <= i < |chain| ==> HasBlocks(chain[i])
  }

  lemma {:induction false} ShownIsAllIff(chain: seq<Message>)
    ensures |Shown(chain)| <= |chain|
    ensures Shown(chain) == Ids(chain) <==> AllHaveBlocks(chain)
    decreases |chain|
  {
    if chain == [] {
    } else {
      var n := |chain| - 1;
      ShownIsAllIff(chain[..n]);
      assert Ids(chain) == Ids(chain[..n]) + [chain[n].id];
      assert forall i :: 0 <= i < n ==> chain[..n][i] == chain[i];
      assert AllHaveBlocks(chain) <==> AllHaveBlocks(chain[..n]) && HasBlocks(chain[n]);
      if Shown(chain) == Ids(chain) {
        assert |Shown(chain)| == |chain|;
        assert HasBlocks(chain[n]);
        assert Shown(chain)[..n] == Shown(chain[..n]) && Ids(chain)[..n] == Ids(chain[..n]);
      }
    }
  }

  lemma {:induction false} NamedKeepsAll(ids: seq<string>)
    requires forall i :: 0 <= i < |ids| ==> ids[i] != ""
    ensures Named(ids) == ids
    decreases |ids|
  {
    if ids == [] {
    } else {
      NamedKeepsAll(ids[..|ids| - 1]);
      assert ids == ids[..|ids| - 1] + [ids[|ids| - 1]];
    }
  }

  /**
   The verdict replay adds at each inference: its messages are those of the request exactly when every message of
   the requested chain had content to record.
   */
  lemma RequestChecksOutIff(events: seq<Event>, chain: seq<Message>, system: Option<string>,
                            systems: nat -> Option<string>)
    requires Identified(events) && Story([], events, chain)
    ensures var l := Transcript(events, systems);
      Verdict(Logged(l, Requested(chain), system), AllHaveBlocks(chain))
  {
    var l := Transcript(events, systems);
    ReplayFindsTheChain(events, chain, systems);
    ShownIsNamed(chain, events);
    ShownIsAllIff(chain);
    VerdictIs(l, system, Ids(chain), Shown(chain));
  }

  /** Replaying the log ends with this verdict on the message ids of the last request. */
  ghost predicate Verdict(l: Log, ok: bool) {
    var asked := Seen(l).integrity;
    asked != [] && asked[|asked| - 1] == MessageIdsCheck(ok)
  }

  lemma LastCheck(v: View, system: Option<string>, ids: seq<string>)
    requires Sound(v)
    ensures var asked := Apply(v, InferenceRequested(system, ids)).integrity;
      asked != [] && asked[|asked| - 1] == MessageIdsCheck(|ids| == 0 || ids == Named(ActiveIds(v)))
  {
  }

  lemma VerdictIs(l: Log, system: Option<string>, ids: seq<string>, active: seq<string>)
    requires ActiveIds(Seen(l)) == active
    ensures Verdict(l.(records := l.records + [InferenceRequested(system, ids)]), |ids| == 0 || ids == Named(active))
  {
    OneMoreRecord(l, InferenceRequested(system, ids));
    LastCheck(Seen(l), system, ids);
  }

  lemma ShownIsNamed(chain: seq<Message>, events: seq<Event>)
    requires Identified(events) && Story([], events, chain)
    ensures Named(Shown(chain)) == Shown(chain)
  {
    forall i | 0 <= i < |Shown(chain)| ensures Shown(chain)[i] != "" {
      ShownHasIds(chain, events, i);
    }
    NamedKeepsAll(Shown(chain));
  }

  lemma ShownHasIds(chain: seq<Message>, events: seq<Event>, i: nat)
    requires Identified(events) && Story([], events, chain) && i < |Shown(chain)|
    ensures Shown(chain)[i] != ""
  {
    var systems: nat -> Option<string> := _ => None;
    var l := Transcript(events, systems);
    var k := RunStaysInStep(events, systems);
    TracksInStep(l, k, Shown(chain), KnownIds(events));
    assert At(Seen(l), k, k + i);
  }
}
