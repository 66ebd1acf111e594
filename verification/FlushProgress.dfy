/** internal/app/model_scrollback.go: finished blocks do not wait, and the end of an answer shows whatever remains. */
module FlushProgress {
  import opened Wrappers
  import opened FlushSpec
  import opened FlushLaws
  import BlockBoundary
  import Strings = Text

  /** The finished part of a row that is not in the cache: thinking is finished once content has begun. */
  function Finished(row: Row): Text {
    var thinking := if row.text.content != "" then row.text.thinking
                    else row.text.thinking[..Bounded(BlockBoundary.Boundary(row.text.thinking), row.text.thinking)];
    var content := row.text.content[..Bounded(BlockBoundary.Boundary(row.text.content), row.text.content)];
    Text(Beyond(thinking, row.thinkingDone), Beyond(content, row.contentDone))
  }

  function Bounded(n: nat, s: string): (m: nat)
    ensures m <= |s|
  {
    if n <= |s| then n else |s|
  }

  function Beyond(s: string, n: nat): string {
    if n < |s| then s[n..] else ""
  }

  predicate OnlyBlanks(t: Text) {
    Strings.Trim(t.thinking) == "" && Strings.Trim(t.content) == ""
  }

  lemma SliceIsFinished(row: Row)
    ensures Slice(row) == Finished(row)
  {
    EndsAreInRange(row.text);
  }

  /** A render of all that is finished and not yet shown of the last row is under way, or there is nothing to show. */
  ghost predicate Underway(s: Chat) {
    s.rows != [] && s.rows[|s.rows| - 1].assistant ==>
      var n := |s.rows| - 1;
      if OnlyBlanks(Finished(s.rows[n])) then s.flight.None?
      else
        && s.flight.Some? && s.flight.value.index == n && s.flight.value.id == s.rows[n].id
        && s.flight.value.slice == Finished(s.rows[n])
  }

  lemma FlushIsUnderway(s: Chat)
    requires s.flight.None?
    ensures Underway(Flush(s))
    ensures Flush(s).rows == s.rows && Flush(s).cache == s.cache && Flush(s).committed == s.committed
  {
    if s.rows != [] {
      SliceIsFinished(s.rows[|s.rows| - 1]);
    }
  }

  /** When no render is under way, a chunk of a running stream starts one for everything that is then finished. */
  lemma ChunkStartsRender(s: Chat, more: Text)
    requires s.active && s.flight.None?
    ensures Underway(Step(s, Chunk(more, false)))
  {
    FlushIsUnderway(Grow(s, more));
  }

  /** When a current render lands on a running stream, its slice is shown and the next one starts. */
  lemma LandingStartsNext(s: Chat, snap: Snapshot)
    requires s.active && s.flight == Some(snap) && Current(s, snap)
    ensures var t := Step(s, RenderDone);
      && Underway(t) && t.cache == s.cache + [Piece(snap.id, snap.slice)]
      && |t.rows| == |s.rows| && t.rows[snap.index].text == s.rows[snap.index].text
  {
    FlushIsUnderway(Landed(s, snap));
  }

  lemma {:induction false} CommitsWhenIdle(s: Chat)
    requires s.committed <= |s.rows| && !s.active
    ensures Commit(s, true).committed == |Commit(s, true).rows| == |s.rows|
    decreases |s.rows| - s.committed
  {
    if s.committed < |s.rows| {
      CommitsWhenIdle(CommitRow(s));
    }
  }

  /** The handlers that end an answer, and the commit that follows one. */
  predicate Ends(s: Chat, e: Event) {
    || (e.Chunk? && e.done && s.active)
    || (e.Interrupt? && s.active)
    || (e.CommitReady? && !s.active)
    || e.CommitAll?
  }

  lemma EndCommitsAll(s: Chat, e: Event)
    requires s.committed <= |s.rows| && Ends(s, e)
    ensures Step(s, e).committed == |Step(s, e).rows|
  {
    match e
    case Chunk(more, _) => CommitsWhenIdle(Grow(s, more).(active := false));
    case Interrupt(mark) =>
      var t := s.(active := false);
      CommitsWhenIdle(if mark then Mark(t) else t);
    case CommitReady => CommitsWhenIdle(s);
    case CommitAll => CommitsAll(s); AllRowsStay(s);
  }

  lemma {:induction false} AllRowsStay(s: Chat)
    ensures |Commit(s, false).rows| == |s.rows|
    decreases |s.rows| - s.committed
  {
    if s.committed < |s.rows| {
      AllRowsStay(CommitRow(s));
    }
  }

  /** In a run that loses nothing, the end of an answer leaves every message of the assistant in the cache, whole. */
  lemma EndShowsEverything(events: seq<Event>, e: Event)
    requires FreshRun(events + [e]) && Ends(Run(events), e)
    requires forall j :: 0 <= j <= |events| ==> !LosesAt(events + [e], j)
    ensures var t := Run(events + [e]);
      && t.committed == |t.rows|
      && forall i: nat :: i < |t.rows| && t.rows[i].assistant ==> Shown(t.cache, t.rows[i].id) == t.rows[i].text
  {
    var all := events + [e];
    assert all[..|events|] == events && all[..|all|] == all;
    RunIsGood(all, |events|);
    RunIsGood(all, |all|);
    RunOn(all, |events|);
    EndCommitsAll(Run(events), e);
    GoodAgrees(Run(all));
    forall i: nat | i < |Run(all).rows| && Run(all).rows[i].assistant
      ensures Shown(Run(all).cache, Run(all).rows[i].id) == Run(all).rows[i].text
    {
      assert RowAgrees(Run(all), i);
    }
  }

  // ---------------------------------------------------------------------------
  // A failed inference leaves no trace in the rows, and an interrupted answer says so.

  /** The rows of `s`, each with its text, are the first ones of `t`. */
  predicate KeepsRows(s: Chat, t: Chat) {
    && |s.rows| <= |t.rows|
    && forall i :: 0 <= i < |s.rows| ==>
      t.rows[i].id == s.rows[i].id && t.rows[i].assistant == s.rows[i].assistant && t.rows[i].text == s.rows[i].text
  }

  /** The stream of an inference that began with the rows of `s`. */
  predicate Streams(s: Chat, t: Chat) {
    && KeepsRows(s, t) && |t.rows| == |s.rows| + 1 && t.rows[|s.rows|].assistant
    && t.active && t.committed <= |s.rows|
  }

  lemma {:induction false} CommitKeepsRows(s: Chat, checkReady: bool)
    requires s.committed <= |s.rows|
    ensures var t := Commit(s, checkReady);
      KeepsRows(s, t) && |t.rows| == |s.rows| && t.active == s.active && t.committed <= |t.rows|
    decreases |s.rows| - s.committed
  {
    if s.committed < |s.rows| && !StopsAt(s, checkReady, s.committed) {
      CommitKeepsRows(CommitRow(s), checkReady);
    }
  }

  lemma InferenceStreams(s: Chat, id: string)
    requires s.committed <= |s.rows|
    ensures Streams(s, Step(s, PreInfer(id)))
  {
    CommitKeepsRows(s.(active := true), true);
  }

  /** Chunks of the answer, and renders that land. */
  predicate OfTheStream(e: Event) {
    (e.Chunk? && !e.done) || e.RenderDone?
  }

  lemma LandKeepsRows(t: Chat)
    ensures var u := Land(t);
      KeepsRows(t, u) && |u.rows| == |t.rows| && u.active == t.active && u.committed == t.committed
  {
  }

  lemma StreamGoesOn(s: Chat, t: Chat, e: Event)
    requires Streams(s, t) && OfTheStream(e)
    ensures Streams(s, Step(t, e))
  {
    match e
    case Chunk(more, _) =>
    case RenderDone => LandKeepsRows(t);
  }

  /** A failed inference takes back its row and whatever had streamed into it; all other rows are as they were. */
  lemma {:induction false} ResetTakesBack(s: Chat, id: string, es: seq<Event>)
    requires s.committed <= |s.rows| && forall j :: 0 <= j < |es| ==> OfTheStream(es[j])
    ensures var t := Followed(Step(s, PreInfer(id)), es);
      Streams(s, t) && KeepsRows(s, Step(t, StreamReset)) && |Step(t, StreamReset).rows| == |s.rows|
    decreases |es|
  {
    if es == [] {
      InferenceStreams(s, id);
    } else {
      ResetTakesBack(s, id, es[..|es| - 1]);
      StreamGoesOn(s, Followed(Step(s, PreInfer(id)), es[..|es| - 1]), es[|es| - 1]);
    }
  }

  /** The text with the note: on its own, or after a blank. */
  function WithNote(content: string): string {
    if content == "" then "[Interrupted]" else content + (" " + "[Interrupted]")
  }

  /** Of these rows only the last changed: its text got the note. */
  predicate OnlyNoted(rows: seq<Row>, after: seq<Row>) {
    var n := |rows| - 1;
    && |after| == |rows| > 0 && (forall i :: 0 <= i < n ==> after[i].text == rows[i].text)
    && after[n].text.thinking == rows[n].text.thinking
    && after[n].text.content == WithNote(rows[n].text.content)
  }

  lemma MarkNotes(s: Chat)
    requires LastIsAssistant(s.rows)
    ensures OnlyNoted(s.rows, Mark(s).rows) && Mark(s).committed == s.committed && Mark(s).active == s.active
  {
    var n := |s.rows| - 1;
    assert s.rows[n].text.thinking + "" == s.rows[n].text.thinking;
    assert "" + "[Interrupted]" == "[Interrupted]";
  }

  lemma NotedThenKept(rows: seq<Row>, marked: Chat, t: Chat)
    requires OnlyNoted(rows, marked.rows) && KeepsRows(marked, t) && |t.rows| == |marked.rows|
    ensures OnlyNoted(rows, t.rows)
  {
  }

  lemma CommitKeepsNote(rows: seq<Row>, marked: Chat)
    requires OnlyNoted(rows, marked.rows) && marked.committed <= |marked.rows| && !marked.active
    ensures OnlyNoted(rows, Commit(marked, true).rows) && !Commit(marked, true).active
  {
    CommitKeepsRows(marked, true);
    NotedThenKept(rows, marked, Commit(marked, true));
  }

  /** Interrupting a streaming answer that calls no tools adds the note to its text, and no other row changes. */
  lemma InterruptNotes(s: Chat)
    requires s.active && s.committed <= |s.rows| && LastIsAssistant(s.rows)
    ensures OnlyNoted(s.rows, Step(s, Interrupt(true)).rows) && !Step(s, Interrupt(true)).active
  {
    MarkNotes(s.(active := false));
    CommitKeepsNote(s.rows, Mark(s.(active := false)));
  }
}
