/** internal/inspector/replay.go: the builder that folds transcript records into the state at a record. */
module ReplayBuilders {
  import opened Wrappers
  import opened SlotOrder
  import opened Compose
  import opened ReplaySpec

  class ReplayBuilder {
    var seqNo: nat
    var sections: map<string, SectionEntry>
    var messages: map<string, Node>
    var order: seq<string>
    var boundaryId: string
    var integrity: seq<Check>

    constructor ()
      ensures State() == EMPTY_VIEW && Sound(State())
    {
      seqNo, sections, messages, order, boundaryId, integrity := 0, map[], map[], [], "", [];
    }

    ghost function State(): View
      reads this
    {
      View(seqNo, sections, messages, order, boundaryId, integrity)
    }

    method Apply(rec: Record)
      requires Sound(State())
      modifies this
      ensures Sound(State()) && State() == ReplaySpec.Apply(old(State()), rec)
    {
      ghost var v := State();
      match rec {
        case SectionAdded(name, slot, content) =>
          var order;
          if name in sections {
            order := sections[name].order;
          } else {
            seqNo := seqNo + 1;
            order := seqNo;
          }
          sections := sections[name := SectionEntry(slot, content, order)];
        case SectionRemoved(name) =>
          sections := sections - {name};
        case MessageAppended(id, parentId) =>
          messages := messages[id := Node(id, parentId)];
          this.order := this.order + [id];
        case SessionCompacted(summaryId) =>
          boundaryId := summaryId;
        case InferenceRequested(system, ids) =>
          CheckInference(system, ids);
      }
      assert State() == ReplaySpec.Apply(v, rec);
    }

    method CheckInference(system: Option<string>, ids: seq<string>)
      requires Sound(State())
      modifies this`integrity
      ensures State() == ReplaySpec.Apply(old(State()), InferenceRequested(system, ids))
    {
      var composed := ComposedSystem();
      var active := ActiveMessages();
      var got := MessageIds(active);
      integrity := integrity + [SystemCheck(system.None? || system.value == composed)];
      integrity := integrity + [MessageIdsCheck(|ids| == 0 || ids == got)];
    }

    method ComposedSystem() returns (text: string)
      requires Sound(State())
      ensures text == ReplaySpec.ComposedSystem(State())
    {
      var names := SortNames(SectionKeys(sections));
      OnlyOneOrder(names, SectionOrder(State()), SectionKeys(sections));
      var parts := NonEmptyContents(names);
      text := Join(parts);
    }

    method NonEmptyContents(names: seq<string>) returns (parts: seq<string>)
      requires forall n :: n in names ==> n in sections
      ensures parts == NonEmpty(Contents(sections, names))
    {
      ghost var texts := Contents(sections, names);
      parts := [];
      for i := 0 to |names|
        invariant parts == NonEmpty(texts[..i])
      {
        assert names[i] in names && texts[i] == sections[names[i]].content;
        assert texts[..i + 1][..i] == texts[..i];
        if sections[names[i]].content != "" {
          parts := parts + [sections[names[i]].content];
        }
      }
      assert texts[..|names|] == texts;
    }

    /** Walks from the latest leaf to the boundary or the root; ends on every record set, cyclic or dangling. */
    method ActiveMessages() returns (ids: seq<string>)
      requires Sound(State())
      ensures ids == ActiveIds(State())
    {
      if |order| == 0 {
        return [];
      }
      var leafId := ActiveLeaf();
      var reversed := WalkUp(leafId);
      ids := Reversed(reversed);
    }

    method ActiveLeaf() returns (leafId: string)
      requires Sound(State()) && order != []
      ensures leafId == Leaf(State())
    {
      var parents := Parents();
      leafId := FindLeaf(parents);
      if leafId == "" {
        leafId := order[|order| - 1];
      }
    }

    method WalkUp(leafId: string) returns (reversed: seq<string>)
      ensures reversed == Trail(State(), leafId, {})
    {
      ghost var v := State();
      reversed := [];
      var seen: set<string> := {};
      var cur := leafId;
      while cur != "" && cur !in seen && cur in messages
        invariant seen <= messages.Keys
        invariant Trail(v, leafId, {}) == reversed + Trail(v, cur, seen)
        decreases messages.Keys - seen
      {
        ghost var before := reversed;
        reversed := reversed + [cur];
        if boundaryId != "" && cur == boundaryId {
          return;
        }
        seen := seen + {cur};
        cur := messages[cur].parentId;
        assert reversed + Trail(v, cur, seen) == before + (reversed[|before|..] + Trail(v, cur, seen));
      }
    }

    /** The ids that some appended message names as its parent. */
    method Parents() returns (hasChild: set<string>)
      requires Sound(State())
      ensures forall id :: id in hasChild <==> HasChild(State(), id)
    {
      hasChild := {};
      for i := 0 to |order|
        invariant forall id :: id in hasChild <==>
          id != "" && exists j :: 0 <= j < i && messages[order[j]].parentId == id
      {
        var n := messages[order[i]];
        if n.parentId != "" {
          hasChild := hasChild + {n.parentId};
        }
      }
    }

    method FindLeaf(hasChild: set<string>) returns (leafId: string)
      requires Sound(State()) && forall id :: id in hasChild <==> HasChild(State(), id)
      ensures leafId == LastLeaf(State(), |order|)
    {
      var i := |order|;
      while i > 0
        invariant 0 <= i <= |order|
        invariant LastLeaf(State(), i) == LastLeaf(State(), |order|)
      {
        if order[i - 1] !in hasChild {
          return order[i - 1];
        }
        i := i - 1;
      }
      leafId := "";
    }

    static method MessageIds(ids: seq<string>) returns (named: seq<string>)
      ensures named == Named(ids)
    {
      named := [];
      for i := 0 to |ids|
        invariant named == Named(ids[..i])
      {
        assert ids[..i + 1][..i] == ids[..i];
        if ids[i] != "" {
          named := named + [ids[i]];
        }
      }
      assert ids[..|ids|] == ids;
    }
  }
}
