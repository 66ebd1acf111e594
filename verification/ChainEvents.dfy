/** What an agent reports to its observers while its chain grows, in causal order. */
module ChainEvents {
  import opened Messages

  datatype Event =
    | Appended(m: Message)          // a message entered the chain
    | Compacted(summaryId: string)  // the chain collapsed to the summary just appended
    | Requested(chain: seq<Message>)  // an inference was asked for with this chain

  /** The chain an observer reconstructs: a compaction leaves only the summary that was appended last. */
  ghost function ChainAfter(start: seq<Message>, events: seq<Event>): (chain: seq<Message>)
    decreases |events|
  {
    if events == [] then start
    else
      var before := ChainAfter(start, events[..|events| - 1]);
      match events[|events| - 1]
      case Appended(m) => before + [m]
      case Compacted(_) => if before == [] then [] else before[|before| - 1..]
      case Requested(_) => before
  }

  lemma {:induction false} ChainAfterConcat(start: seq<Message>, first: seq<Event>, second: seq<Event>)
    ensures ChainAfter(start, first + second) == ChainAfter(ChainAfter(start, first), second)
    decreases |second|
  {
    if second == [] {
      assert first + second == first;
    } else {
      var n := |second| - 1;
      ChainAfterConcat(start, first, second[..n]);
      assert (first + second)[..|first| + n] == first + second[..n];
    }
  }

  /** Every compaction boundary names the summary, a user text, that was appended just before it. */
  ghost predicate Paired(events: seq<Event>) {
    forall i :: 0 <= i < |events| && events[i].Compacted? ==> 0 < i && Summarizes(events[i - 1], events[i].summaryId)
  }

  predicate Summarizes(e: Event, id: string) {
    e.Appended? && e.m.id == id && e.m.role.User? && e.m.result.None? && e.m.content != ""
  }

  /** The events take the chain from `start` to `end`, and every request carries the chain of that moment. */
  ghost predicate Story(start: seq<Message>, events: seq<Event>, end: seq<Message>) {
    && Paired(events)
    && ChainAfter(start, events) == end
    && forall i :: 0 <= i < |events| && events[i].Requested? ==> events[i].chain == ChainAfter(start, events[..i])
  }

  lemma StoryConcat(start: seq<Message>, first: seq<Event>, middle: seq<Message>, second: seq<Event>, end: seq<Message>)
    requires Story(start, first, middle) && Story(middle, second, end)
    ensures Story(start, first + second, end)
  {
    var events := first + second;
    ChainAfterConcat(start, first, second);
    forall i | 0 <= i < |events| && events[i].Requested? ensures events[i].chain == ChainAfter(start, events[..i]) {
      if i < |first| {
        assert events[..i] == first[..i];
      } else {
        ChainAfterConcat(start, first, second[..i - |first|]);
        assert events[..i] == first + second[..i - |first|];
      }
    }
    forall i | 0 <= i < |events| && events[i].Compacted?
      ensures 0 < i && Summarizes(events[i - 1], events[i].summaryId)
    {
      if i >= |first| {
        assert second[i - |first|].Compacted?;
      }
    }
  }

  lemma OneEventStory(start: seq<Message>, e: Event)
    requires !e.Compacted? && (e.Requested? ==> e.chain == start)
    ensures Story(start, [e], if e.Appended? then start + [e.m] else start)
  {
    assert [e][..0] == [];
    assert ChainAfter(start, []) == start;
  }
}
