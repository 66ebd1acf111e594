/** Each byte of a streamed message reaches the cache once and in order, whatever the interleaving. */
module FlushLaws {
  import opened Wrappers
  import opened FlushSpec

  function Prefix(row: Row): Text
    requires row.thinkingDone <= |row.text.thinking| && row.contentDone <= |row.text.content|
  {
    Text(row.text.thinking[..row.thinkingDone], row.text.content[..row.contentDone])
  }

  lemma EndsAreInRange(t: Text)
    ensures ThinkingEnd(t) <= |t.thinking| && ContentEnd(t) <= |t.content|
  {
    BlockBoundary.BoundaryOnlyAdvances(t.thinking, "");
    BlockBoundary.BoundaryOnlyAdvances(t.content, "");
  }

  lemma EndsOnlyAdvance(t: Text, more: Text)
    ensures ThinkingEnd(t) <= ThinkingEnd(Join(t, more)) && ContentEnd(t) <= ContentEnd(Join(t, more))
  {
    BlockBoundary.BoundaryOnlyAdvances(t.thinking, more.thinking);
    BlockBoundary.BoundaryOnlyAdvances(t.content, more.content);
    EndsAreInRange(t);
  }

  /** A row agrees with what the cache shows of it: all of it once committed, else the part flushed so far. */
  ghost predicate RowOk(row: Row, committed: bool, shown: Text) {
    if committed then row.thinkingDone == 0 && row.contentDone == 0 && (row.assistant ==> shown == row.text)
    else
      && row.thinkingDone <= ThinkingEnd(row.text) <= |row.text.thinking|
      && row.contentDone <= ContentEnd(row.text) <= |row.text.content|
      && (row.assistant ==> shown == Prefix(row))
  }

  ghost predicate RowsOk(s: Chat) {
    forall i :: 0 <= i < |s.rows| ==> RowOk(s.rows[i], i < s.committed, Shown(s.cache, s.rows[i].id))
  }

  /** No two rows share an id if one of them streams. */
  predicate IdsApart(rows: seq<Row>) {
    forall i, j :: 0 <= i < j < |rows| && (rows[i].assistant || rows[j].assistant) ==> rows[i].id != rows[j].id
  }

  /** A snapshot continues its row exactly where the cache stopped. */
  ghost predicate Continues(snap: Snapshot, row: Row) {
    && row.thinkingDone <= snap.thinkingEnd <= ThinkingEnd(row.text) <= |row.text.thinking|
    && row.contentDone <= snap.contentEnd <= ContentEnd(row.text) <= |row.text.content|
    && snap.slice.thinking == row.text.thinking[row.thinkingDone..snap.thinkingEnd]
    && snap.slice.content == row.text.content[row.contentDone..snap.contentEnd]
  }

  ghost predicate FlightOk(s: Chat) {
    s.flight.Some? && Current(s, s.flight.value) ==> Continues(s.flight.value, s.rows[s.flight.value.index])
  }

  predicate Shape(s: Chat) {
    s.committed <= |s.rows| && IdsApart(s.rows)
  }

  ghost predicate Good(s: Chat) {
    Shape(s) && RowsOk(s) && FlightOk(s)
  }

  // ---------------------------------------------------------------------------
  // The cache.

  lemma ShownAfter(cache: seq<Piece>, p: Piece, id: string)
    ensures Shown(cache + [p], id) == Join(Shown(cache, id), if p.id == id then p.text else BLANK)
  {
    assert (cache + [p])[..|cache|] == cache;
  }

  lemma OthersStay(cache: seq<Piece>, p: Piece, id: string)
    requires p.id != id
    ensures Shown(cache + [p], id) == Shown(cache, id)
  {
    ShownAfter(cache, p, id);
    assert Shown(cache, id).thinking + "" == Shown(cache, id).thinking;
    assert Shown(cache, id).content + "" == Shown(cache, id).content;
  }

  predicate NotIn(cache: seq<Piece>, id: string) {
    forall i :: 0 <= i < |cache| ==> cache[i].id != id
  }

  lemma {:induction false} NothingShown(cache: seq<Piece>, id: string)
    requires NotIn(cache, id)
    ensures Shown(cache, id) == BLANK
    decreases |cache|
  {
    if cache == [] {
    } else {
      NothingShown(cache[..|cache| - 1], id);
    }
  }

  // ---------------------------------------------------------------------------
  // Flush and land.

  lemma SliceContinues(row: Row, id: string, index: nat)
    requires row.thinkingDone <= ThinkingEnd(row.text) <= |row.text.thinking|
    requires row.contentDone <= ContentEnd(row.text) <= |row.text.content|
    ensures Continues(Snapshot(id, index, Slice(row), ThinkingEnd(row.text), ContentEnd(row.text)), row)
  {
  }

  /** Only the flight changes. */
  lemma FlightReplaced(s: Chat, snap: Snapshot)
    requires Good(s) && snap.index < |s.rows|
    requires snap.index >= s.committed ==> Continues(snap, s.rows[snap.index])
    ensures Good(s.(flight := Some(snap)))
  {
    var t := s.(flight := Some(snap));
    forall i | 0 <= i < |t.rows| ensures RowOk(t.rows[i], i < t.committed, Shown(t.cache, t.rows[i].id)) {
      assert RowOk(s.rows[i], i < s.committed, Shown(s.cache, s.rows[i].id));
    }
  }

  lemma FlushKeepsGood(s: Chat)
    requires Good(s)
    ensures Good(Flush(s))
  {
    if Flush(s) != s {
      var n := |s.rows| - 1;
      var row := s.rows[n];
      if n >= s.committed {
        assert RowOk(row, n < s.committed, Shown(s.cache, row.id));
        SliceContinues(row, row.id, n);
      }
      FlightReplaced(s, Snapshot(row.id, n, Slice(row), ThinkingEnd(row.text), ContentEnd(row.text)));
    }
  }

  lemma LandedRowOk(row: Row, snap: Snapshot, shown: Text)
    requires RowOk(row, false, shown) && row.assistant && Continues(snap, row)
    ensures RowOk(row.(thinkingDone := snap.thinkingEnd, contentDone := snap.contentEnd), false,
      Join(shown, snap.slice))
  {
    PrefixGrows(row.text.thinking, row.thinkingDone, snap.thinkingEnd);
    PrefixGrows(row.text.content, row.contentDone, snap.contentEnd);
  }

  lemma PrefixGrows(s: string, a: nat, b: nat)
    requires a <= b <= |s|
    ensures s[..a] + s[a..b] == s[..b]
  {
  }

  lemma LandedKeepsGood(s: Chat, snap: Snapshot)
    requires Good(s) && s.flight == Some(snap) && Current(s, snap)
    ensures Good(Landed(s, snap))
  {
    var t := Landed(s, snap);
    forall i | 0 <= i < |t.rows| ensures RowOk(t.rows[i], i < t.committed, Shown(t.cache, t.rows[i].id)) {
      var row := s.rows[i];
      assert RowOk(row, i < s.committed, Shown(s.cache, row.id));
      if i == snap.index {
        ShownAfter(s.cache, Piece(snap.id, snap.slice), snap.id);
        LandedRowOk(row, snap, Shown(s.cache, row.id));
      } else if row.assistant {
        OthersStay(s.cache, Piece(snap.id, snap.slice), row.id);
      }
    }
  }

  lemma LandKeepsGood(s: Chat)
    requires Good(s)
    ensures Good(Land(s))
  {
    if s.flight.Some? && Current(s, s.flight.value) {
      LandedKeepsGood(s, s.flight.value);
      FlushKeepsGood(Landed(s, s.flight.value));
    }
  }

  // ---------------------------------------------------------------------------
  // Commit.

  lemma RestCompletes(row: Row)
    requires row.thinkingDone <= |row.text.thinking| && row.contentDone <= |row.text.content|
    ensures Join(Prefix(row), Rest(row)) == row.text
  {
    assert row.text.thinking[..row.thinkingDone] + row.text.thinking[row.thinkingDone..] == row.text.thinking;
    assert row.text.content[..row.contentDone] + row.text.content[row.contentDone..] == row.text.content;
    assert row.text.thinking + "" == row.text.thinking && row.text.content + "" == row.text.content;
  }

  lemma CommitRowKeepsGood(s: Chat)
    requires Good(s) && s.committed < |s.rows|
    ensures Good(CommitRow(s))
  {
    var t := CommitRow(s);
    var n := s.committed;
    var p := Piece(s.rows[n].id, Rest(s.rows[n]));
    forall i | 0 <= i < |t.rows| ensures RowOk(t.rows[i], i < t.committed, Shown(t.cache, t.rows[i].id)) {
      var row := s.rows[i];
      assert RowOk(row, i < n, Shown(s.cache, row.id));
      if i == n {
        ShownAfter(s.cache, p, row.id);
        RestCompletes(row);
      } else if row.assistant {
        OthersStay(s.cache, p, row.id);
      }
    }
  }

  lemma {:induction false} CommitKeepsGood(s: Chat, checkReady: bool)
    requires Good(s)
    ensures Good(Commit(s, checkReady))
    decreases |s.rows| - s.committed
  {
    if s.committed < |s.rows| && !StopsAt(s, checkReady, s.committed) {
      CommitRowKeepsGood(s);
      CommitKeepsGood(CommitRow(s), checkReady);
    }
  }

  // ---------------------------------------------------------------------------
  // Everything else.

  /** The id of a new row is new; notices, which do not stream, may go without one. */
  predicate NewId(s: Chat, id: string, assistant: bool) {
    && (forall i :: 0 <= i < |s.rows| && (assistant || s.rows[i].assistant) ==> s.rows[i].id != id)
    && (assistant ==> NotIn(s.cache, id) && (s.flight.Some? ==> s.flight.value.id != id))
  }

  /** New rows come with new ids. */
  predicate Fresh(s: Chat, e: Event) {
    match e
    case AppendRow(id, assistant, text) => NewId(s, id, assistant)
    case PreInfer(id) => NewId(s, id, true)
    case _ => true
  }

  /** Text is arriving, or would arrive, in the last row. */
  predicate Streaming(s: Chat) {
    s.active && LastIsAssistant(s.rows)
  }

  /** Text would arrive in a row that has been committed. */
  predicate Late(s: Chat) {
    Streaming(s) && s.committed == |s.rows|
  }

  /** The step adds text to a row that has been committed: a chunk, or the mark of an interrupted answer. */
  predicate Loses(s: Chat, e: Event) {
    match e
    case Chunk(more, _) => Late(s) && more != BLANK
    case Interrupt(mark) => s.active && mark && 0 <= LastAssistant(s.rows) < s.committed
    case _ => false
  }

  lemma GrownEnds(t: Text, more: Text)
    ensures ThinkingEnd(t) <= ThinkingEnd(Join(t, more)) <= |t.thinking + more.thinking|
    ensures ContentEnd(t) <= ContentEnd(Join(t, more)) <= |t.content + more.content|
  {
    EndsOnlyAdvance(t, more);
    EndsAreInRange(Join(t, more));
  }

  lemma SliceStays(s: string, more: string, a: nat, b: nat)
    requires a <= b <= |s|
    ensures (s + more)[a..b] == s[a..b]
  {
  }

  function Grown(row: Row, more: Text): Row {
    row.(text := Join(row.text, more))
  }

  lemma GrownRowOk(row: Row, more: Text, shown: Text)
    requires RowOk(row, false, shown)
    ensures RowOk(Grown(row, more), false, shown)
  {
    GrownEnds(row.text, more);
    SliceStays(row.text.thinking, more.thinking, 0, row.thinkingDone);
    SliceStays(row.text.content, more.content, 0, row.contentDone);
  }

  lemma GrownContinues(snap: Snapshot, row: Row, more: Text)
    requires Continues(snap, row)
    ensures Continues(snap, Grown(row, more))
  {
    GrownEnds(row.text, more);
    SliceStays(row.text.thinking, more.thinking, row.thinkingDone, snap.thinkingEnd);
    SliceStays(row.text.content, more.content, row.contentDone, snap.contentEnd);
  }

  /** One row changes, in the same place, under the same id. */
  lemma RowReplaced(s: Chat, n: nat, row: Row)
    requires Good(s) && n < |s.rows| && row.id == s.rows[n].id && row.assistant == s.rows[n].assistant
    requires RowOk(row, n < s.committed, Shown(s.cache, row.id))
    requires s.flight.Some? && Current(s, s.flight.value) && s.flight.value.index == n ==>
      Continues(s.flight.value, row)
    ensures Good(s.(rows := s.rows[n := row]))
  {
    var t := s.(rows := s.rows[n := row]);
    forall i | 0 <= i < |t.rows| ensures RowOk(t.rows[i], i < t.committed, Shown(t.cache, t.rows[i].id)) {
      if i != n {
        assert RowOk(s.rows[i], i < s.committed, Shown(s.cache, s.rows[i].id));
      }
    }
  }

  lemma GrownInPlace(s: Chat, n: nat, more: Text)
    requires Good(s) && s.committed <= n < |s.rows|
    ensures Good(s.(rows := s.rows[n := Grown(s.rows[n], more)]))
  {
    var row := s.rows[n];
    assert RowOk(row, n < s.committed, Shown(s.cache, row.id));
    GrownRowOk(row, more, Shown(s.cache, row.id));
    if s.flight.Some? && Current(s, s.flight.value) && s.flight.value.index == n {
      GrownContinues(s.flight.value, row, more);
    }
    RowReplaced(s, n, Grown(row, more));
  }

  lemma BlankGrowth(row: Row)
    ensures Grown(row, BLANK) == row
  {
    assert row.text.thinking + "" == row.text.thinking && row.text.content + "" == row.text.content;
  }

  lemma GrowKeepsGood(s: Chat, more: Text)
    requires Good(s) && (more == BLANK || !LastIsAssistant(s.rows) || s.committed < |s.rows|)
    ensures Good(Grow(s, more))
  {
    if LastIsAssistant(s.rows) {
      var n := |s.rows| - 1;
      if s.committed <= n {
        GrownInPlace(s, n, more);
      } else {
        BlankGrowth(s.rows[n]);
        assert s.rows[n := s.rows[n]] == s.rows;
      }
    }
  }

  lemma MarkKeepsGood(s: Chat)
    requires Good(s) && !(0 <= LastAssistant(s.rows) < s.committed)
    ensures Good(Mark(s))
  {
    var n := LastAssistant(s.rows);
    if n >= 0 {
      GrownInPlace(s, n, Marker(s.rows[n].text));
    }
  }

  lemma NewRowOk(s: Chat, row: Row)
    requires NewId(s, row.id, row.assistant) && row.thinkingDone == 0 && row.contentDone == 0
    ensures RowOk(row, false, Shown(s.cache, row.id))
  {
    EndsAreInRange(row.text);
    if row.assistant {
      NothingShown(s.cache, row.id);
    }
  }

  lemma AppendKeepsGood(s: Chat, id: string, assistant: bool, text: Text)
    requires Good(s) && NewId(s, id, assistant)
    ensures Good(Step(s, AppendRow(id, assistant, text)))
  {
    var t := Step(s, AppendRow(id, assistant, text));
    NewRowOk(s, Row(id, assistant, text, 0, 0));
    forall i | 0 <= i < |t.rows| ensures RowOk(t.rows[i], i < t.committed, Shown(t.cache, t.rows[i].id)) {
      if i < |s.rows| {
        assert RowOk(s.rows[i], i < s.committed, Shown(s.cache, s.rows[i].id));
      }
    }
  }

  lemma DropKeepsGood(s: Chat)
    requires Good(s)
    ensures Good(Dropped(s))
  {
    var t := Dropped(s);
    forall i | 0 <= i < |t.rows| ensures RowOk(t.rows[i], i < t.committed, Shown(t.cache, t.rows[i].id)) {
      assert RowOk(s.rows[i], i < s.committed, Shown(s.cache, s.rows[i].id));
    }
  }

  lemma OnlyActivityChanges(s: Chat, t: Chat)
    requires Good(s) && t == s.(active := t.active)
    ensures Good(t)
  {
  }

  /** A piece of a row from `first` on. */
  ghost predicate IsOf(p: Piece, rows: seq<Row>, first: nat) {
    exists i :: first <= i < |rows| && p.id == rows[i].id
  }

  /** A commit only adds pieces of rows to the cache, and only resets offsets in rows. */
  ghost predicate Recommitted(s: Chat, t: Chat) {
    && s.committed <= t.committed <= |t.rows| == |s.rows| && t.active == s.active && t.flight == s.flight
    && (forall i :: 0 <= i < |s.rows| ==>
         t.rows[i] == s.rows[i].(thinkingDone := t.rows[i].thinkingDone, contentDone := t.rows[i].contentDone))
    && s.cache <= t.cache
    && (forall k :: |s.cache| <= k < |t.cache| ==> IsOf(t.cache[k], s.rows, s.committed))
  }

  lemma {:induction false} CommitOnlyAdds(s: Chat, checkReady: bool)
    requires s.committed <= |s.rows|
    ensures Recommitted(s, Commit(s, checkReady))
    decreases |s.rows| - s.committed
  {
    if s.committed >= |s.rows| || StopsAt(s, checkReady, s.committed) {
    } else {
      var u := CommitRow(s);
      CommitOnlyAdds(u, checkReady);
      RecommittedFrom(s, u, Commit(u, checkReady));
    }
  }

  lemma RecommittedFrom(s: Chat, u: Chat, t: Chat)
    requires s.committed < |s.rows| && u == CommitRow(s) && Recommitted(u, t)
    ensures Recommitted(s, t)
  {
    forall k | |s.cache| <= k < |t.cache| ensures IsOf(t.cache[k], s.rows, s.committed) {
      if k >= |u.cache| {
        IsOfEarlier(t.cache[k], s.rows, u.rows, s.committed);
      } else {
        assert t.cache[k] == u.cache[k] && u.cache[k].id == s.rows[s.committed].id;
      }
    }
  }

  lemma IsOfEarlier(p: Piece, rows: seq<Row>, same: seq<Row>, first: nat)
    requires |rows| == |same| && IsOf(p, same, first + 1) && forall i :: 0 <= i < |rows| ==> same[i].id == rows[i].id
    ensures IsOf(p, rows, first)
  {
    var i :| first + 1 <= i < |same| && p.id == same[i].id;
    assert p.id == rows[i].id;
  }

  lemma StillNew(s: Chat, t: Chat, id: string)
    requires NewId(s, id, true) && Recommitted(s, t)
    ensures NewId(t, id, true)
  {
  }

  lemma PreInferKeepsGood(s: Chat, id: string)
    requires Good(s) && NewId(s, id, true)
    ensures Good(Step(s, PreInfer(id)))
  {
    var t := s.(active := true);
    OnlyActivityChanges(s, t);
    CommitKeepsGood(t, true);
    CommitOnlyAdds(t, true);
    StillNew(t, Commit(t, true), id);
    AppendKeepsGood(Commit(t, true), id, true, BLANK);
  }

  lemma ChunkKeepsGood(s: Chat, more: Text, done: bool)
    requires Good(s) && !Loses(s, Chunk(more, done))
    ensures Good(Step(s, Chunk(more, done)))
  {
    if s.active {
      var t := Grow(s, more);
      GrowKeepsGood(s, more);
      if done {
        OnlyActivityChanges(t, t.(active := false));
        CommitKeepsGood(t.(active := false), true);
      } else {
        FlushKeepsGood(t);
      }
    }
  }

  lemma InterruptKeepsGood(s: Chat, mark: bool)
    requires Good(s) && !Loses(s, Interrupt(mark))
    ensures Good(Step(s, Interrupt(mark)))
  {
    if s.active {
      var t := s.(active := false);
      OnlyActivityChanges(s, t);
      if mark {
        MarkKeepsGood(t);
      }
      CommitKeepsGood(if mark then Mark(t) else t, true);
    }
  }

  lemma StepKeepsGood(s: Chat, e: Event)
    requires Good(s) && Fresh(s, e) && !Loses(s, e)
    ensures Good(Step(s, e))
  {
    match e
    case AppendRow(id, assistant, text) => AppendKeepsGood(s, id, assistant, text);
    case PreInfer(id) => PreInferKeepsGood(s, id);
    case Chunk(more, done) => ChunkKeepsGood(s, more, done);
    case StreamReset => OnlyActivityChanges(s, s.(active := false)); DropKeepsGood(s.(active := false));
    case Stop => OnlyActivityChanges(s, Step(s, e));
    case Interrupt(mark) => InterruptKeepsGood(s, mark);
    case RenderDone => LandKeepsGood(s);
    case CommitReady => CommitKeepsGood(s, true);
    case CommitAll => CommitKeepsGood(s, false);
    case Clear(_) =>
  }

  // ---------------------------------------------------------------------------
  // Whole runs.

  function Run(events: seq<Event>): Chat
    decreases |events|
  {
    if events == [] then EMPTY else Step(Run(events[..|events| - 1]), events[|events| - 1])
  }

  lemma RunOn(events: seq<Event>, n: nat)
    requires n < |events|
    ensures Run(events[..n + 1]) == Step(Run(events[..n]), events[n])
  {
    assert events[..n + 1][..n] == events[..n];
  }

  ghost predicate FreshRun(events: seq<Event>) {
    forall j :: 0 <= j < |events| ==> Fresh(Run(events[..j]), events[j])
  }

  ghost predicate LosesAt(events: seq<Event>, j: nat)
    requires j < |events|
  {
    Loses(Run(events[..j]), events[j])
  }

  /** What a reader sees of an assistant row: all of it once committed, and of a streaming one what has been flushed. */
  ghost predicate RowAgrees(s: Chat, i: nat)
    requires i < |s.rows|
  {
    var row := s.rows[i];
    row.assistant ==>
      if i < s.committed then Shown(s.cache, row.id) == row.text
      else
        && row.thinkingDone <= |row.text.thinking| && row.contentDone <= |row.text.content|
        && Shown(s.cache, row.id) == Prefix(row)
  }

  ghost predicate Agrees(s: Chat) {
    forall i: nat :: i < |s.rows| ==> RowAgrees(s, i)
  }

  lemma GoodAgrees(s: Chat)
    requires Good(s)
    ensures Agrees(s)
  {
    forall i: nat | i < |s.rows| ensures RowAgrees(s, i) {
      assert RowOk(s.rows[i], i < s.committed, Shown(s.cache, s.rows[i].id));
    }
  }

  lemma {:induction false} RunIsGood(events: seq<Event>, n: nat)
    requires FreshRun(events) && n <= |events| && forall j :: 0 <= j < n ==> !LosesAt(events, j)
    ensures Good(Run(events[..n]))
  {
    if n == 0 {
      assert events[..0] == [];
    } else {
      RunIsGood(events, n - 1);
      assert !LosesAt(events, n - 1);
      RunOn(events, n - 1);
      StepKeepsGood(Run(events[..n - 1]), events[n - 1]);
    }
  }

  // ---------------------------------------------------------------------------
  // A step that adds text to a committed row is seen.

  lemma CommitKeepsShape(s: Chat, checkReady: bool)
    requires Shape(s)
    ensures Shape(Commit(s, checkReady))
  {
    CommitOnlyAdds(s, checkReady);
  }

  lemma GrowthKeepsShape(s: Chat, n: nat, more: Text)
    requires Shape(s) && n < |s.rows|
    ensures Shape(s.(rows := GrownAt(s.rows, n, more)))
  {
  }

  lemma PreInferKeepsShape(s: Chat, id: string)
    requires Shape(s) && NewId(s, id, true)
    ensures Shape(Step(s, PreInfer(id)))
  {
    var t := s.(active := true);
    CommitOnlyAdds(t, true);
    StillNew(t, Commit(t, true), id);
  }

  lemma LandKeepsShape(s: Chat)
    requires Shape(s)
    ensures Shape(Land(s))
  {
  }

  lemma StepKeepsShape(s: Chat, e: Event)
    requires Shape(s) && Fresh(s, e)
    ensures Shape(Step(s, e))
  {
    match e
    case PreInfer(id) => PreInferKeepsShape(s, id);
    case Chunk(more, done) =>
      if LastIsAssistant(s.rows) {
        GrowthKeepsShape(s, |s.rows| - 1, more);
      }
      CommitKeepsShape(Grow(s, more).(active := false), true);
    case Interrupt(mark) => InterruptKeepsShape(s, mark);
    case RenderDone => LandKeepsShape(s);
    case CommitReady => CommitKeepsShape(s, true);
    case CommitAll => CommitKeepsShape(s, false);
    case _ =>
  }

  lemma InterruptKeepsShape(s: Chat, mark: bool)
    requires Shape(s)
    ensures Shape(Step(s, Interrupt(mark)))
  {
    var t := s.(active := false);
    var n := LastAssistant(t.rows);
    if n >= 0 {
      GrowthKeepsShape(t, n, Marker(t.rows[n].text));
    }
    CommitKeepsShape(if mark then Mark(t) else t, true);
  }

  lemma {:induction false} RunKeepsShape(events: seq<Event>, n: nat)
    requires FreshRun(events) && n <= |events|
    ensures Shape(Run(events[..n]))
  {
    if n == 0 {
      assert events[..0] == [];
    } else {
      RunKeepsShape(events, n - 1);
      RunOn(events, n - 1);
      StepKeepsShape(Run(events[..n - 1]), events[n - 1]);
    }
  }

  /** Pieces of other rows do not change what is shown of a row. */
  lemma {:induction false} OtherPieces(cache: seq<Piece>, longer: seq<Piece>, id: string)
    requires cache <= longer && forall k :: |cache| <= k < |longer| ==> longer[k].id != id
    ensures Shown(longer, id) == Shown(cache, id)
    decreases |longer|
  {
    if longer == cache {
    } else {
      var n := |longer| - 1;
      OtherPieces(cache, longer[..n], id);
      OthersStay(longer[..n], longer[n], id);
      assert longer == longer[..n] + [longer[n]];
    }
  }

  lemma NotOf(p: Piece, rows: seq<Row>, i: nat, first: nat)
    requires IdsApart(rows) && i < first <= |rows| && rows[i].assistant && IsOf(p, rows, first)
    ensures p.id != rows[i].id
  {
    var j :| first <= j < |rows| && p.id == rows[j].id;
    assert rows[i].id != rows[j].id;
  }

  /** A commit leaves what is shown of a committed assistant row. */
  lemma CommitShowsSame(s: Chat, i: nat, checkReady: bool)
    requires Shape(s) && i < s.committed && s.rows[i].assistant
    ensures var t := Commit(s, checkReady);
      && i < t.committed <= |t.rows| && t.rows[i].text == s.rows[i].text
      && t.rows[i].id == s.rows[i].id && t.rows[i].assistant
      && Shown(t.cache, s.rows[i].id) == Shown(s.cache, s.rows[i].id)
  {
    CommitOnlyAdds(s, checkReady);
    var t := Commit(s, checkReady);
    forall k | |s.cache| <= k < |t.cache| ensures t.cache[k].id != s.rows[i].id {
      NotOf(t.cache[k], s.rows, i, s.committed);
    }
    OtherPieces(s.cache, t.cache, s.rows[i].id);
  }

  lemma LongerIsOther(t: Text, more: Text)
    requires more != BLANK
    ensures Join(t, more) != t
  {
    assert |Join(t, more).thinking| + |Join(t, more).content| > |t.thinking| + |t.content|;
  }

  lemma LossIsSeen(s: Chat, e: Event)
    requires Shape(s) && Agrees(s) && Loses(s, e)
    ensures !Agrees(Step(s, e))
  {
    var n := LastAssistant(s.rows);
    assert RowAgrees(s, n);
    if e.Chunk? {
      var t := Grow(s, e.more);
      LongerIsOther(s.rows[n].text, e.more);
      assert !RowAgrees(Step(s, e), n);
    } else {
      var t := Mark(s.(active := false));
      LongerIsOther(s.rows[n].text, Marker(s.rows[n].text));
      CommitShowsSame(t, n, true);
      assert !RowAgrees(Step(s, e), n);
    }
  }

  /**
   Over any interleaving of chunks, rows, renders that land late or never, commits, retries, interrupts and clears:
   after every step the cache holds each byte of a committed message once and in order, and of a streaming one exactly
   what has been flushed, if and only if no step adds text to a row that has been committed.
   */
  lemma EveryByteOnce(events: seq<Event>)
    requires FreshRun(events)
    ensures (forall n :: 0 <= n <= |events| ==> Agrees(Run(events[..n]))) <==>
      (forall j :: 0 <= j < |events| ==> !LosesAt(events, j))
  {
    if forall j :: 0 <= j < |events| ==> !LosesAt(events, j) {
      forall n | 0 <= n <= |events| ensures Agrees(Run(events[..n])) {
        RunIsGood(events, n);
        GoodAgrees(Run(events[..n]));
      }
    } else {
      var j :| 0 <= j < |events| && LosesAt(events, j);
      RunKeepsShape(events, j);
      RunOn(events, j);
      if Agrees(Run(events[..j])) {
        LossIsSeen(Run(events[..j]), events[j]);
      }
    }
  }

  // ---------------------------------------------------------------------------
  // Which handlers can lead to such a step.

  lemma {:induction false} CommitsAll(s: Chat)
    requires s.committed <= |s.rows|
    ensures Commit(s, false).committed == |s.rows|
    decreases |s.rows| - s.committed
  {
    if s.committed == |s.rows| {
    } else {
      CommitsAll(CommitRow(s));
    }
  }

  lemma {:induction false} SparesStream(s: Chat)
    requires s.committed < |s.rows| && Streaming(s)
    ensures Commit(s, true).committed < |s.rows|
    decreases |s.rows| - s.committed
  {
    if StopsAt(s, true, s.committed) {
    } else {
      SparesStream(CommitRow(s));
    }
  }

  /**
   Of all that can happen, only a commit of all rows while the last one streams makes later chunks arrive too late.
   */
  lemma LateOnlyAfterCommitAll(s: Chat, e: Event)
    requires s.committed <= |s.rows| && !Late(s)
    ensures Late(Step(s, e)) <==> e.CommitAll? && Streaming(s)
  {
    match e
    case PreInfer(_) => CommitOnlyAdds(s.(active := true), true);
    case Chunk(more, done) => CommitOnlyAdds(Grow(s, more).(active := false), true);
    case Interrupt(mark) =>
      var t := s.(active := false);
      CommitOnlyAdds(if mark then Mark(t) else t, true);
    case CommitReady =>
      CommitOnlyAdds(s, true);
      if Streaming(s) {
        SparesStream(s);
      }
    case CommitAll => CommitOnlyAdds(s, false); CommitsAll(s);
    case _ =>
  }

  /** All rows are committed only when the last one is not streaming, and an interrupt marks only the last row. */
  predicate Careful(s: Chat, e: Event) {
    && (e.CommitAll? ==> !Streaming(s))
    && (e.Interrupt? && e.mark && s.active ==> LastIsAssistant(s.rows))
  }

  lemma {:induction false} NeverLate(events: seq<Event>, n: nat)
    requires FreshRun(events) && n <= |events|
    requires forall j :: 0 <= j < n ==> Careful(Run(events[..j]), events[j])
    ensures !Late(Run(events[..n])) && Run(events[..n]).committed <= |Run(events[..n]).rows|
  {
    if n == 0 {
      assert events[..0] == [];
    } else {
      NeverLate(events, n - 1);
      RunKeepsShape(events, n);
      RunOn(events, n - 1);
      LateOnlyAfterCommitAll(Run(events[..n - 1]), events[n - 1]);
    }
  }

  /** So under that care, which a caller can check before each step, no run loses or repeats anything. */
  lemma CarefulRunsAgree(events: seq<Event>)
    requires FreshRun(events) && forall j :: 0 <= j < |events| ==> Careful(Run(events[..j]), events[j])
    ensures forall n :: 0 <= n <= |events| ==> Agrees(Run(events[..n]))
  {
    forall j | 0 <= j < |events| ensures !LosesAt(events, j) {
      NeverLate(events, j);
      assert Careful(Run(events[..j]), events[j]);
    }
    EveryByteOnce(events);
  }

  lemma LateAfterCommitAllIff(s: Chat)
    requires s.committed <= |s.rows|
    ensures Late(Step(s, CommitAll)) <==> Streaming(s)
  {
    CommitOnlyAdds(s, false);
    CommitsAll(s);
  }

  /** The next chunk is seen exactly when the text does not arrive too late. */
  lemma ChunkAgreesIff(s: Chat, more: Text)
    requires Good(s) && more != BLANK
    ensures Agrees(Step(s, Chunk(more, false))) <==> !Late(s)
  {
    GoodAgrees(s);
    if Late(s) {
      LossIsSeen(s, Chunk(more, false));
    } else {
      StepKeepsGood(s, Chunk(more, false));
      GoodAgrees(Step(s, Chunk(more, false)));
    }
  }

  /**
   And the care is exact: after a commit of all rows, in any run, the next chunk is lost if and only if the last row was
   streaming.
   */
  lemma CommitAllLosesIff(events: seq<Event>, more: Text)
    requires FreshRun(events) && more != BLANK && forall n :: 0 <= n <= |events| ==> Agrees(Run(events[..n]))
    ensures Agrees(Run(events + [CommitAll] + [Chunk(more, false)])) <==> !Streaming(Run(events))
  {
    AgreeingRunIsGood(events);
    OneMoreEvent(events, CommitAll);
    OneMoreEvent(events + [CommitAll], Chunk(more, false));
    TwoStepsAgreeIff(Run(events), more);
  }

  lemma AgreeingRunIsGood(events: seq<Event>)
    requires FreshRun(events) && forall n :: 0 <= n <= |events| ==> Agrees(Run(events[..n]))
    ensures Good(Run(events))
  {
    EveryByteOnce(events);
    RunIsGood(events, |events|);
    assert events[..|events|] == events;
  }

  lemma TwoStepsAgreeIff(s: Chat, more: Text)
    requires Good(s) && more != BLANK
    ensures Agrees(Step(Step(s, CommitAll), Chunk(more, false))) <==> !Streaming(s)
  {
    CommitKeepsGood(s, false);
    LateAfterCommitAllIff(s);
    ChunkAgreesIff(Step(s, CommitAll), more);
  }

  lemma OneMoreEvent(events: seq<Event>, e: Event)
    ensures Run(events + [e]) == Step(Run(events), e)
  {
    assert (events + [e])[..|events|] == events;
  }

  /** Such a run: an answer begins, all rows are committed, and its text comes too late. */
  lemma TextComesTooLate(id: string, more: Text)
    requires more != BLANK
    ensures FreshRun([PreInfer(id)]) && Streaming(Run([PreInfer(id)]))
    ensures !Agrees(Run([PreInfer(id)] + [CommitAll] + [Chunk(more, false)]))
  {
    var begun := [PreInfer(id)];
    assert begun[..0] == [] && begun[..1] == begun;
    JustBegun(id);
    forall n | 0 <= n <= |begun| ensures Agrees(Run(begun[..n])) {
      assert begun[..n] == [] || begun[..n] == begun;
    }
    CommitAllLosesIff(begun, more);
  }

  lemma JustBegun(id: string)
    ensures Run([]) == EMPTY
    ensures Run([PreInfer(id)]) == EMPTY.(active := true, rows := [Row(id, true, BLANK, 0, 0)])
  {
    assert [] + [PreInfer(id)] == [PreInfer(id)];
    OneMoreEvent([], PreInfer(id));
    var t := EMPTY.(active := true);
    assert Commit(t, true) == t;
    assert t.rows + [Row(id, true, BLANK, 0, 0)] == [Row(id, true, BLANK, 0, 0)];
  }

  // ---------------------------------------------------------------------------
  // What has been lost stays lost.

  function Size(t: Text): nat {
    |t.thinking| + |t.content|
  }

  lemma JoinBlank(t: Text)
    ensures Join(t, BLANK) == t
  {
    assert t.thinking + "" == t.thinking && t.content + "" == t.content;
  }

  lemma SizeOfJoin(t: Text, more: Text)
    ensures Size(Join(t, more)) == Size(t) + Size(more)
    ensures more != BLANK ==> Size(more) > 0
    ensures more == BLANK ==> Join(t, more) == t
  {
    JoinBlank(t);
  }

  /** Row `i` is committed, and `lost` characters of it are not shown. */
  ghost predicate Lacks(s: Chat, i: nat, id: string, lost: nat) {
    && Shape(s) && i < s.committed && s.rows[i].assistant && s.rows[i].id == id
    && Size(s.rows[i].text) >= Size(Shown(s.cache, id)) + lost
  }

  lemma CommitLacks(s: Chat, i: nat, id: string, lost: nat, checkReady: bool)
    requires Lacks(s, i, id, lost)
    ensures Lacks(Commit(s, checkReady), i, id, lost)
  {
    CommitKeepsShape(s, checkReady);
    CommitShowsSame(s, i, checkReady);
  }

  lemma GrowthLacks(s: Chat, n: nat, more: Text, i: nat, id: string, lost: nat)
    requires Lacks(s, i, id, lost) && n < |s.rows|
    ensures Lacks(s.(rows := GrownAt(s.rows, n, more)), i, id, lost)
  {
    SizeOfJoin(s.rows[n].text, more);
  }

  lemma FlightAside(s: Chat, t: Chat, i: nat, id: string, lost: nat)
    requires Lacks(s, i, id, lost) && t == s.(flight := t.flight)
    ensures Lacks(t, i, id, lost)
  {
  }

  lemma LandedLacks(s: Chat, snap: Snapshot, i: nat, id: string, lost: nat)
    requires Lacks(s, i, id, lost) && Current(s, snap)
    ensures Lacks(Landed(s, snap), i, id, lost)
  {
    assert s.rows[i].id != s.rows[snap.index].id;
    OthersStay(s.cache, Piece(snap.id, snap.slice), id);
  }

  lemma LandLacks(s: Chat, i: nat, id: string, lost: nat)
    requires Lacks(s, i, id, lost)
    ensures Lacks(Land(s), i, id, lost)
  {
    if s.flight.None? || !Current(s, s.flight.value) {
      FlightAside(s, s.(flight := None), i, id, lost);
    } else {
      var t := Landed(s, s.flight.value);
      LandedLacks(s, s.flight.value, i, id, lost);
      OnlyFlight(t);
      FlightAside(t, Flush(t), i, id, lost);
    }
  }

  lemma OnlyFlight(s: Chat)
    ensures Flush(s) == s.(flight := Flush(s).flight)
  {
  }

  lemma InterruptLacks(s: Chat, mark: bool, i: nat, id: string, lost: nat)
    requires Lacks(s, i, id, lost) && s.active
    ensures Lacks(Step(s, Interrupt(mark)), i, id, lost)
  {
    var t := s.(active := false);
    var n := LastAssistant(t.rows);
    if n >= 0 {
      GrowthLacks(t, n, Marker(t.rows[n].text), i, id, lost);
    }
    CommitLacks(if mark then Mark(t) else t, i, id, lost, true);
  }

  lemma ChunkLacks(s: Chat, more: Text, done: bool, i: nat, id: string, lost: nat)
    requires Lacks(s, i, id, lost) && s.active
    ensures Lacks(Step(s, Chunk(more, done)), i, id, lost)
  {
    GrowthLacks(s, |s.rows| - 1, more, i, id, lost);
    var t := Grow(s, more);
    if done {
      CommitLacks(t.(active := false), i, id, lost, true);
    } else {
      OnlyFlight(t);
      FlightAside(t, Flush(t), i, id, lost);
    }
  }

  lemma StepLacks(s: Chat, e: Event, i: nat, id: string, lost: nat)
    requires Lacks(s, i, id, lost) && Fresh(s, e) && !e.Clear?
    ensures Lacks(Step(s, e), i, id, lost)
  {
    match e
    case AppendRow(_, _, _) => StepKeepsShape(s, e);
    case PreInfer(_) =>
      StepKeepsShape(s, e);
      CommitLacks(s.(active := true), i, id, lost, true);
    case Chunk(more, done) =>
      if s.active {
        ChunkLacks(s, more, done, i, id, lost);
      }
    case Interrupt(mark) =>
      if s.active {
        InterruptLacks(s, mark, i, id, lost);
      }
    case RenderDone => LandLacks(s, i, id, lost);
    case CommitReady => CommitLacks(s, i, id, lost, true);
    case CommitAll => CommitLacks(s, i, id, lost, false);
    case StreamReset =>
    case Stop =>
  }

  /** Until the rows are cleared, no later step brings what a committed row lacks into the cache. */
  lemma {:induction false} LostForGood(events: seq<Event>, n: nat, k: nat, i: nat, id: string, lost: nat)
    requires FreshRun(events) && n <= k <= |events| && Lacks(Run(events[..n]), i, id, lost)
    requires forall j :: n <= j < k ==> !events[j].Clear?
    ensures Lacks(Run(events[..k]), i, id, lost)
  {
    if n == k {
    } else {
      LostForGood(events, n, k - 1, i, id, lost);
      RunOn(events, k - 1);
      StepLacks(Run(events[..k - 1]), events[k - 1], i, id, lost);
    }
  }

  // ---------------------------------------------------------------------------
  // What of an answer reaches its row at all.

  /** What happens between the beginning of an inference and its end. */
  predicate WhileInferring(e: Event) {
    (e.Chunk? && !e.done) || (e.AppendRow? && !e.assistant) || e.RenderDone? || e.CommitReady?
  }

  function Followed(s: Chat, es: seq<Event>): Chat
    decreases |es|
  {
    if es == [] then s else Step(Followed(s, es[..|es| - 1]), es[|es| - 1])
  }

  /** The text of all chunks. */
  function Received(es: seq<Event>): Text
    decreases |es|
  {
    if es == [] then BLANK
    else
      var e := es[|es| - 1];
      Join(Received(es[..|es| - 1]), if e.Chunk? then e.more else BLANK)
  }

  predicate Noted(es: seq<Event>) {
    exists i :: 0 <= i < |es| && es[i].AppendRow?
  }

  /** The text of the chunks before the first other row. */
  function Entered(es: seq<Event>): Text
    decreases |es|
  {
    if es == [] then BLANK
    else
      var front, e := es[..|es| - 1], es[|es| - 1];
      Join(Entered(front), if e.Chunk? && !Noted(front) then e.more else BLANK)
  }

  /** A chunk with text comes after another row. */
  predicate Missed(es: seq<Event>, j: nat)
    requires j < |es|
  {
    es[j].Chunk? && es[j].more != BLANK && Noted(es[..j])
  }

  ghost predicate NoneMissed(es: seq<Event>) {
    forall j: nat :: j < |es| ==> !Missed(es, j)
  }

  lemma NoneMissedStep(es: seq<Event>)
    requires es != []
    ensures NoneMissed(es) <==> NoneMissed(es[..|es| - 1]) && !Missed(es, |es| - 1)
    ensures !Noted(es[..|es| - 1]) ==> NoneMissed(es[..|es| - 1])
  {
    var n, front := |es| - 1, es[..|es| - 1];
    forall j: nat | j < n ensures Missed(es, j) == Missed(front, j) && (Noted(front[..j]) ==> Noted(front)) {
      assert front[..j] == es[..j];
    }
    if NoneMissed(es) {
      assert forall j: nat :: j < n ==> !Missed(es, j);
    }
  }

  lemma {:induction false} EnteredIffNoneMissed(es: seq<Event>)
    ensures Size(Entered(es)) <= Size(Received(es))
    ensures Entered(es) == Received(es) <==> NoneMissed(es)
    decreases |es|
  {
    if es == [] {
    } else {
      var front, e := es[..|es| - 1], es[|es| - 1];
      EnteredIffNoneMissed(front);
      NoneMissedStep(es);
      var more := if e.Chunk? then e.more else BLANK;
      SizeOfJoin(Received(front), more);
      SizeOfJoin(Entered(front), if Noted(front) then BLANK else more);
      assert Received(es) == Join(Received(front), more);
      assert Entered(es) == Join(Entered(front), if Noted(front) then BLANK else more);
    }
  }

  /** Row `n` is the last and streams until another row comes after it; its text is what has entered. */
  ghost predicate Fills(s: Chat, n: nat, noted: bool, text: Text) {
    && s.active && s.committed <= |s.rows| && n < |s.rows| && s.rows[n].text == text
    && (if noted then !LastIsAssistant(s.rows) else |s.rows| == n + 1 && s.rows[n].assistant)
  }

  lemma TextsStay(s: Chat, t: Chat, n: nat, noted: bool, text: Text)
    requires Fills(s, n, noted, text)
    requires t.active && |t.rows| == |s.rows| && t.committed <= |t.rows|
    requires forall i :: 0 <= i < |s.rows| ==>
      t.rows[i].text == s.rows[i].text && t.rows[i].assistant == s.rows[i].assistant
    ensures Fills(t, n, noted, text)
  {
  }

  lemma ChunkFills(s: Chat, n: nat, noted: bool, text: Text, more: Text)
    requires Fills(s, n, noted, text)
    ensures Fills(Flush(Grow(s, more)), n, noted, Join(text, if noted then BLANK else more))
  {
    JoinBlank(text);
    var t := Grow(s, more);
    assert Fills(t, n, noted, Join(text, if noted then BLANK else more));
    TextsStay(t, Flush(t), n, noted, t.rows[n].text);
  }

  lemma LandFills(s: Chat, n: nat, noted: bool, text: Text)
    requires Fills(s, n, noted, text)
    ensures Fills(Land(s), n, noted, text)
  {
    TextsStay(s, Land(s), n, noted, text);
  }

  lemma FillsOn(s: Chat, e: Event, n: nat, noted: bool, text: Text)
    requires Fills(s, n, noted, text) && WhileInferring(e)
    ensures Fills(Step(s, e), n, noted || e.AppendRow?, Join(text, if e.Chunk? && !noted then e.more else BLANK))
  {
    JoinBlank(text);
    match e
    case Chunk(more, _) => ChunkFills(s, n, noted, text, more);
    case AppendRow(_, _, _) =>
    case RenderDone => LandFills(s, n, noted, text);
    case CommitReady =>
      CommitOnlyAdds(s, true);
      TextsStay(s, Commit(s, true), n, noted, text);
  }

  lemma {:induction false} FillsAlong(s: Chat, n: nat, es: seq<Event>)
    requires Fills(s, n, false, BLANK) && forall j :: 0 <= j < |es| ==> WhileInferring(es[j])
    ensures Fills(Followed(s, es), n, Noted(es), Entered(es))
    decreases |es|
  {
    if es == [] {
    } else {
      var front, e := es[..|es| - 1], es[|es| - 1];
      FillsAlong(s, n, front);
      FillsOn(Followed(s, front), e, n, Noted(front), Entered(front));
      assert Noted(es) <==> Noted(front) || e.AppendRow?;
    }
  }

  /**
   While an inference streams, whatever renders land and rows are committed: its row holds all the text received if
   and only if no chunk with text came after another row was appended.
   */
  lemma WholeAnswerIff(s: Chat, id: string, es: seq<Event>)
    requires s.committed <= |s.rows| && forall j :: 0 <= j < |es| ==> WhileInferring(es[j])
    ensures var begun := Step(s, PreInfer(id));
      var t, n := Followed(begun, es), |begun.rows| - 1;
      && 0 <= n < |t.rows|
      && (t.rows[n].text == Received(es) <==> NoneMissed(es))
  {
    CommitOnlyAdds(s.(active := true), true);
    var begun := Step(s, PreInfer(id));
    FillsAlong(begun, |begun.rows| - 1, es);
    EnteredIffNoneMissed(es);
  }
}
