/** An agent's run, its recorder and the replay builder, end to end. */
module AgentReplay {
  import opened Wrappers
  import opened Messages
  import opened ChainEvents
  import opened TurnSpec
  import opened TurnLaws
  import opened ReplaySpec
  import opened TranscriptReplay

  /** The events before the run, then those of its first `n` passes. */
  ghost function WholeStory(env: Env, cfg: Config, t: Turn, n: nat, before: seq<Event>): seq<Event> {
    RunTellsItsStory(env, cfg, t, n);
    before + Passes(env, cfg, t, n).t.a.events[|t.a.events|..]
  }

  lemma WholeStoryIsOne(env: Env, cfg: Config, t: Turn, n: nat, before: seq<Event>)
    requires Story([], before, t.a.messages)
    ensures Story([], WholeStory(env, cfg, t, n, before), Passes(env, cfg, t, n).t.a.messages)
  {
    RunTellsItsStory(env, cfg, t, n);
    var a := Passes(env, cfg, t, n).t.a;
    StoryConcat([], before, t.a.messages, a.events[|t.a.events|..], a.messages);
  }

  lemma StoryPrefix(events: seq<Event>, i: nat, end: seq<Message>)
    requires Story([], events, end) && i <= |events|
    ensures Story([], events[..i], ChainAfter([], events[..i]))
  {
    var first := events[..i];
    forall j | 0 <= j < i && first[j].Requested? ensures first[j].chain == ChainAfter([], first[..j]) {
      assert first[j] == events[j] && first[..j] == events[..j];
    }
    forall j | 0 <= j < i && first[j].Compacted? ensures 0 < j && Summarizes(first[j - 1], first[j].summaryId) {
      assert events[j].Compacted?;
    }
  }

  /**
   Whatever the model, the tools and the inbox do: at every inference of a run whose ids are unique, under any step cap
   or none, replaying what had been recorded until then gives the ids of the very chain sent to the model, less its
   contentless messages.
   */
  lemma EveryInferenceReplays(env: Env, cfg: Config, t: Turn, n: nat, before: seq<Event>, i: nat,
                              systems: nat -> Option<string>)
    requires Story([], before, t.a.messages)
    requires var events := WholeStory(env, cfg, t, n, before);
      Identified(events) && i < |events| && events[i].Requested?
    ensures var events := WholeStory(env, cfg, t, n, before);
      ActiveIds(Seen(Transcript(events[..i], systems))) == Shown(events[i].chain)
  {
    var events := WholeStory(env, cfg, t, n, before);
    WholeStoryIsOne(env, cfg, t, n, before);
    StoryPrefix(events, i, Passes(env, cfg, t, n).t.a.messages);
    PrefixIdentified(events, i);
    ReplayFindsTheChain(events[..i], ChainAfter([], events[..i]), systems);
  }

  lemma PrefixIdentified(events: seq<Event>, i: nat)
    requires Identified(events) && i <= |events|
    ensures Identified(events[..i])
  {
  }
}
