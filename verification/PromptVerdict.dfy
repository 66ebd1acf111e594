/**
 internal/inspector/replay.go, checkInference: what replay says of the prompt a request claims to have sent, over a
 whole transcript in which section records, message records and requests stand in any order.
 */
module PromptVerdict {
  import opened Wrappers
  import opened SlotOrder
  import opened Compose
  import opened LivePrompt
  import opened ReplaySpec
  import opened SectionReplay

  // ---------------------------------------------------------------------------
  // Of a transcript, only the section records bear on the composed prompt, and only the others on the messages.

  predicate OfSections(r: Record) {
    r.SectionAdded? || r.SectionRemoved?
  }

  function SectionRecords(rs: seq<Record>): seq<Record>
    decreases |rs|
  {
    if rs == [] then []
    else
      var n := |rs| - 1;
      if OfSections(rs[n]) then SectionRecords(rs[..n]) + [rs[n]] else SectionRecords(rs[..n])
  }

  function OtherRecords(rs: seq<Record>): seq<Record>
    decreases |rs|
  {
    if rs == [] then []
    else
      var n := |rs| - 1;
      if OfSections(rs[n]) then OtherRecords(rs[..n]) else OtherRecords(rs[..n]) + [rs[n]]
  }

  ghost predicate SameSectionPart(v: View, w: View) {
    v.seqNo == w.seqNo && v.sections == w.sections
  }

  ghost predicate SameMessagePart(v: View, w: View) {
    v.messages == w.messages && v.order == w.order && v.boundaryId == w.boundaryId
  }

  lemma ReplayOne(rs: seq<Record>, r: Record)
    ensures Replay(EMPTY_VIEW, rs + [r]) == Apply(Replay(EMPTY_VIEW, rs), r)
  {
    assert (rs + [r])[..|rs|] == rs;
  }

  lemma SectionsApplied(v: View, w: View, r: Record)
    requires Sound(v) && Sound(w) && SameSectionPart(v, w)
    ensures if OfSections(r) then SameSectionPart(Apply(v, r), Apply(w, r)) else SameSectionPart(Apply(v, r), w)
  {
  }

  lemma MessagesApplied(v: View, w: View, r: Record)
    requires Sound(v) && Sound(w) && SameMessagePart(v, w)
    ensures if OfSections(r) then SameMessagePart(Apply(v, r), w) else SameMessagePart(Apply(v, r), Apply(w, r))
  {
  }

  lemma {:induction false} SectionsAreIndependent(rs: seq<Record>)
    ensures SameSectionPart(Replay(EMPTY_VIEW, rs), Replay(EMPTY_VIEW, SectionRecords(rs)))
    decreases |rs|
  {
    if rs != [] {
      var n := |rs| - 1;
      SectionsAreIndependent(rs[..n]);
      SectionsApplied(Replay(EMPTY_VIEW, rs[..n]), Replay(EMPTY_VIEW, SectionRecords(rs[..n])), rs[n]);
      ReplayOne(SectionRecords(rs[..n]), rs[n]);
    }
  }

  lemma {:induction false} MessagesAreIndependent(rs: seq<Record>)
    ensures SameMessagePart(Replay(EMPTY_VIEW, rs), Replay(EMPTY_VIEW, OtherRecords(rs)))
    decreases |rs|
  {
    if rs != [] {
      var n := |rs| - 1;
      MessagesAreIndependent(rs[..n]);
      MessagesApplied(Replay(EMPTY_VIEW, rs[..n]), Replay(EMPTY_VIEW, OtherRecords(rs[..n])), rs[n]);
      ReplayOne(OtherRecords(rs[..n]), rs[n]);
    }
  }

  // ---------------------------------------------------------------------------
  // The section records of a run of the prompt.

  function Recorded(changes: seq<Change>): seq<Record> {
    seq(|changes|, i requires 0 <= i < |changes| => RecordOf(changes[i]))
  }

  lemma HeardOneMore(v: View, changes: seq<Change>, c: Change)
    requires Sound(v)
    ensures Heard(v, changes + [c]) == Apply(Heard(v, changes), RecordOf(c))
  {
    assert (changes + [c])[..|changes|] == changes;
  }

  lemma RecordedOneMore(changes: seq<Change>, c: Change)
    ensures Recorded(changes + [c]) == Recorded(changes) + [RecordOf(c)]
  {
  }

  lemma {:induction false} HeardIsReplayed(changes: seq<Change>)
    ensures Heard(EMPTY_VIEW, changes) == Replay(EMPTY_VIEW, Recorded(changes))
    decreases |changes|
  {
    if changes != [] {
      var before, c := changes[..|changes| - 1], changes[|changes| - 1];
      HeardIsReplayed(before);
      assert changes == before + [c];
      HeardOneMore(EMPTY_VIEW, before, c);
      RecordedOneMore(before, c);
      ReplayOne(Recorded(before), RecordOf(c));
    }
  }

  lemma HeardOnStep(v: View, first: seq<Change>, before: seq<Change>, c: Change, w: View)
    requires Sound(v) && w == Heard(v, first) && Heard(v, first + before) == Heard(w, before)
    ensures Heard(v, first + before + [c]) == Heard(w, before + [c])
  {
    HeardOneMore(v, first + before, c);
    HeardOneMore(w, before, c);
  }

  lemma JoinedInTwoWays(first: seq<Change>, before: seq<Change>, c: Change)
    ensures first + (before + [c]) == first + before + [c]
  {
  }

  lemma {:induction false} HeardOn(v: View, first: seq<Change>, second: seq<Change>)
    requires Sound(v)
    ensures Heard(v, first + second) == Heard(Heard(v, first), second)
    decreases |second|
  {
    if second == [] {
      assert first + second == first;
    } else {
      var before, c := second[..|second| - 1], second[|second| - 1];
      assert second == before + [c];
      HeardOn(v, first, before);
      HeardOnStep(v, first, before, c, Heard(v, first));
      JoinedInTwoWays(first, before, c);
    }
  }

  /** Everything the observer is told, from its attachment on. */
  ghost function Announced<W>(r: Registry<W>, ops: seq<Op<W>>): seq<Change>
    requires WellNumbered(r)
    decreases |ops|
  {
    if ops == [] then Introduction(r, Order(r))
    else
      var n := |ops| - 1;
      Announced(r, ops[..n]) + Emitted(Tracked(r, ops[..n]).live, ops[n])
  }

  lemma {:induction false} TrackedIsAnnounced<W>(r: Registry<W>, ops: seq<Op<W>>)
    requires WellNumbered(r)
    ensures Tracked(r, ops).view == Heard(EMPTY_VIEW, Announced(r, ops))
    decreases |ops|
  {
    if ops != [] {
      var n := |ops| - 1;
      TrackedIsAnnounced(r, ops[..n]);
      HeardOn(EMPTY_VIEW, Announced(r, ops[..n]), Emitted(Tracked(r, ops[..n]).live, ops[n]));
    }
  }

  // ---------------------------------------------------------------------------
  // The verdict.

  /** Replaying the transcript ends with this verdict on the prompt of its last request, and some on its messages. */
  ghost predicate PromptChecksOut(rs: seq<Record>, ok: bool) {
    EndsWith(Replay(EMPTY_VIEW, rs).integrity, ok)
  }

  predicate EndsWith(checks: seq<Check>, ok: bool) {
    |checks| >= 2 && checks[|checks| - 2] == SystemCheck(ok) && checks[|checks| - 1].MessageIdsCheck?
  }

  lemma LastChecks(v: View, system: Option<string>, ids: seq<string>)
    requires Sound(v)
    ensures EndsWith(Apply(v, InferenceRequested(system, ids)).integrity,
                     system.None? || system.value == ComposedSystem(v))
  {
  }

  lemma SystemVerdict(rs: seq<Record>, system: Option<string>, ids: seq<string>)
    ensures PromptChecksOut(rs + [InferenceRequested(system, ids)],
                            system.None? || system.value == ComposedSystem(Replay(EMPTY_VIEW, rs)))
  {
    ReplayOne(rs, InferenceRequested(system, ids));
    LastChecks(Replay(EMPTY_VIEW, rs), system, ids);
  }

  lemma SameComposed(v: View, w: View)
    requires Numbered(v) && Numbered(w) && SameSectionPart(v, w)
    ensures ComposedSystem(v) == ComposedSystem(w)
  {
    OnlyOneOrder(SectionOrder(v), SectionOrder(w), SectionKeys(v.sections));
  }

  /** The transcript records the run: its section records are the changes told, with other records among them. */
  ghost predicate Records<W>(rs: seq<Record>, r: Registry<W>, ops: seq<Op<W>>)
    requires WellNumbered(r)
  {
    SectionRecords(rs) == Recorded(Announced(r, ops))
  }

  lemma RecordsCompose<W>(rs: seq<Record>, r: Registry<W>, ops: seq<Op<W>>)
    requires WellNumbered(r) && Records(rs, r, ops)
    ensures ComposedSystem(Replay(EMPTY_VIEW, rs)) == ComposedSystem(Tracked(r, ops).view)
  {
    SectionsAreIndependent(rs);
    TrackedIsAnnounced(r, ops);
    HeardIsReplayed(Announced(r, ops));
    SameComposed(Replay(EMPTY_VIEW, rs), Tracked(r, ops).view);
  }

  /** A request that claims a prompt passes exactly when replay composes that prompt; one that claims none passes. */
  lemma PromptChecksOutIff<W>(rs: seq<Record>, r: Registry<W>, ops: seq<Op<W>>, claim: Option<string>,
                              ids: seq<string>)
    requires WellNumbered(r) && Records(rs, r, ops)
    ensures PromptChecksOut(rs + [InferenceRequested(claim, ids)],
                            claim.None? || claim.value == ComposedSystem(Tracked(r, ops).view))
  {
    RecordsCompose(rs, r, ops);
    SystemVerdict(rs, claim, ids);
  }

  /**
   So after any run in which no two shown sections have crossed, the prompt that was sent passes and every other claim
   fails, whatever messages and requests the transcript holds besides.
   */
  lemma SentPromptChecksOut<W>(rs: seq<Record>, r: Registry<W>, ops: seq<Op<W>>, claim: string, ids: seq<string>)
    requires WellNumbered(r) && CalmRun(r, ops) && Records(rs, r, ops)
    requires var t := Tracked(r, ops); forall m, n :: m in Shown(t) && n in Shown(t) ==> !Crossed(t, m, n)
    ensures WellNumbered(Tracked(r, ops).live)
    ensures PromptChecksOut(rs + [InferenceRequested(Some(claim), ids)], claim == FromScratch(Tracked(r, ops).live))
  {
    ReplayComposesPrompt(r, ops);
    PromptChecksOutIff(rs, r, ops, Some(claim), ids);
  }

  /** After the one move that makes two sections cross, the prompt that was sent fails the check. */
  lemma MovedPromptFails(rs: seq<Record>, ids: seq<string>)
    requires WellNumbered(TwoSections()) && Records(rs, TwoSections(), [MoveB()])
    ensures WellNumbered(Tracked(TwoSections(), [MoveB()]).live)
    ensures PromptChecksOut(
      rs + [InferenceRequested(Some(FromScratch(Tracked(TwoSections(), [MoveB()]).live)), ids)], false)
  {
    MovedSectionsCross();
    assert "A\n\nB"[0] != "B\n\nA"[0];
    PromptChecksOutIff(rs, TwoSections(), [MoveB()], Some("A\n\nB"), ids);
  }

  /** The messages replay finds are those of the other records alone. */
  lemma MessagesAsWithoutSections(rs: seq<Record>)
    ensures ActiveIds(Replay(EMPTY_VIEW, rs)) == ActiveIds(Replay(EMPTY_VIEW, OtherRecords(rs)))
  {
    MessagesAreIndependent(rs);
    SameActive(Replay(EMPTY_VIEW, rs), Replay(EMPTY_VIEW, OtherRecords(rs)));
  }

  lemma SameActive(v: View, w: View)
    requires WellLinked(v) && WellLinked(w) && SameMessagePart(v, w)
    ensures ActiveIds(v) == ActiveIds(w)
  {
    SameLeaf(v, w, |v.order|);
    if v.order != [] {
      SameTrail(v, w, Leaf(v), {});
    }
  }

  lemma {:induction false} SameLeaf(v: View, w: View, n: nat)
    requires WellLinked(v) && WellLinked(w) && SameMessagePart(v, w) && n <= |v.order|
    ensures LastLeaf(v, n) == LastLeaf(w, n)
  {
    if n > 0 {
      SameLeaf(v, w, n - 1);
      assert HasChild(v, v.order[n - 1]) <==> HasChild(w, v.order[n - 1]);
    }
  }

  lemma {:induction false} SameTrail(v: View, w: View, cur: string, seen: set<string>)
    requires SameMessagePart(v, w)
    ensures Trail(v, cur, seen) == Trail(w, cur, seen)
    decreases v.messages.Keys - seen
  {
    if cur != "" && cur !in seen && cur in v.messages && !(v.boundaryId != "" && cur == v.boundaryId) {
      SameTrail(v, w, v.messages[cur].parentId, seen + {cur});
    }
  }
}
