/**
 internal/app/model_scrollback.go: how a streamed message moves, block by block, into the cache of the viewport,
 each block rendered off the main thread. Rendering itself is left open: the cache holds the slices it is given.
 */
module FlushSpec {
  import opened Wrappers
  import BlockBoundary
  import Strings = Text

  datatype Text = Text(thinking: string, content: string)

  const BLANK := Text("", "")

  function Join(a: Text, b: Text): Text {
    Text(a.thinking + b.thinking, a.content + b.content)
  }

  /** One row of the conversation; only assistant rows stream. */
  datatype Row = Row(id: string, assistant: bool, text: Text, thinkingDone: nat, contentDone: nat)

  /** A slice of a row in the cache. */
  datatype Piece = Piece(id: string, text: Text)

  /** What a background render works from. */
  datatype Snapshot = Snapshot(id: string, index: nat, slice: Text, thinkingEnd: nat, contentEnd: nat)

  datatype Chat = Chat(
    rows: seq<Row>,
    committed: nat,              // the rows before this one are in the cache, whole
    active: bool,                // a stream is running
    flight: Option<Snapshot>,    // the render under way
    cache: seq<Piece>)

  const EMPTY := Chat([], 0, false, None, [])

  // ---------------------------------------------------------------------------
  // Flushing.

  /** How much of the thinking is finished: all of it, once content has begun. */
  function ThinkingEnd(t: Text): nat {
    if t.content != "" then |t.thinking| else BlockBoundary.Boundary(t.thinking)
  }

  function ContentEnd(t: Text): nat {
    BlockBoundary.Boundary(t.content)
  }

  function Cut(s: string, from: nat, until: nat): string {
    if from < until <= |s| then s[from..until] else ""
  }

  function Slice(row: Row): Text {
    Text(Cut(row.text.thinking, row.thinkingDone, ThinkingEnd(row.text)),
         Cut(row.text.content, row.contentDone, ContentEnd(row.text)))
  }

  predicate Blank(t: Text) {
    Strings.Trim(t.thinking) == "" && Strings.Trim(t.content) == ""
  }

  function Flush(s: Chat): Chat {
    if s.flight.Some? || s.rows == [] then s
    else
      var n := |s.rows| - 1;
      var row := s.rows[n];
      if !row.assistant || Blank(Slice(row)) then s
      else s.(flight := Some(Snapshot(row.id, n, Slice(row), ThinkingEnd(row.text), ContentEnd(row.text))))
  }

  /** The row a snapshot was taken of is still there, and still streaming. */
  predicate Current(s: Chat, snap: Snapshot) {
    && s.committed <= snap.index < |s.rows|
    && s.rows[snap.index].id == snap.id && s.rows[snap.index].assistant
  }

  function Landed(s: Chat, snap: Snapshot): Chat
    requires snap.index < |s.rows|
  {
    s.(flight := None,
       rows := s.rows[snap.index := s.rows[snap.index].(thinkingDone := snap.thinkingEnd,
         contentDone := snap.contentEnd)],
       cache := s.cache + [Piece(snap.id, snap.slice)])
  }

  /** The result of the render under way arrives. */
  function Land(s: Chat): Chat {
    match s.flight
    case None => s
    case Some(snap) =>
      if !Current(s, snap) then s.(flight := None)
      else if s.active then Flush(Landed(s, snap))
      else Landed(s, snap)
  }

  // ---------------------------------------------------------------------------
  // Committing.

  function From(s: string, n: nat): string {
    if n >= |s| then "" else s[n..]
  }

  /** What of a row is not in the cache yet. */
  function Rest(row: Row): Text {
    Text(From(row.text.thinking, row.thinkingDone), From(row.text.content, row.contentDone))
  }

  function CommitRow(s: Chat): Chat
    requires s.committed < |s.rows|
  {
    var row := s.rows[s.committed];
    s.(cache := s.cache + [Piece(row.id, Rest(row))],
       rows := s.rows[s.committed := row.(thinkingDone := 0, contentDone := 0)],
       committed := s.committed + 1)
  }

  predicate StopsAt(s: Chat, checkReady: bool, i: nat)
    requires i < |s.rows|
  {
    checkReady && i == |s.rows| - 1 && s.rows[i].assistant && s.active
  }

  function Commit(s: Chat, checkReady: bool): Chat
    decreases |s.rows| - s.committed
  {
    if s.committed >= |s.rows| || StopsAt(s, checkReady, s.committed) then s else Commit(CommitRow(s), checkReady)
  }

  // ---------------------------------------------------------------------------
  // Everything else that happens to the conversation.

  predicate LastIsAssistant(rows: seq<Row>) {
    rows != [] && rows[|rows| - 1].assistant
  }

  /** Text joins the last row, if it is the assistant's. */
  function Grow(s: Chat, more: Text): Chat {
    if LastIsAssistant(s.rows) then s.(rows := GrownAt(s.rows, |s.rows| - 1, more)) else s
  }

  function GrownAt(rows: seq<Row>, n: nat, more: Text): seq<Row>
    requires n < |rows|
  {
    rows[n := rows[n].(text := Join(rows[n].text, more))]
  }

  /** The last assistant row, or -1. */
  function LastAssistant(rows: seq<Row>): (i: int)
    ensures -1 <= i < |rows| && (i >= 0 ==> rows[i].assistant)
  {
    if rows == [] then -1
    else if rows[|rows| - 1].assistant then |rows| - 1
    else LastAssistant(rows[..|rows| - 1])
  }

  const INTERRUPTED := "[Interrupted]"

  function Marker(t: Text): Text {
    Text("", if t.content == "" then INTERRUPTED else " " + INTERRUPTED)
  }

  /** Marks the last assistant row as interrupted. */
  function Mark(s: Chat): Chat {
    var n := LastAssistant(s.rows);
    if n < 0 then s else s.(rows := GrownAt(s.rows, n, Marker(s.rows[n].text)))
  }

  function Dropped(s: Chat): Chat {
    if |s.rows| > s.committed && LastIsAssistant(s.rows) then s.(rows := s.rows[..|s.rows| - 1]) else s
  }

  datatype Event =
    | AppendRow(id: string, assistant: bool, text: Text)   // a notice, user text or tool result, or a resumed row
    | PreInfer(id: string)                 // an inference begins: the stream, and an empty row for its answer
    | Chunk(more: Text, done: bool)        // text arrives; `done` ends an answer that calls no tools
    | StreamReset                          // a failed inference takes its partial row back
    | Stop                                 // the stream ends otherwise
    | Interrupt(mark: bool)                // the user stops it; an answer that calls tools is not marked
    | RenderDone
    | CommitReady
    | CommitAll
    | Clear(wipe: bool)                    // the rows go, with or without what the cache shows

  function Step(s: Chat, e: Event): Chat {
    match e
    case AppendRow(id, assistant, text) => s.(rows := s.rows + [Row(id, assistant, text, 0, 0)])
    case PreInfer(id) =>
      var t := Commit(s.(active := true), true);
      t.(rows := t.rows + [Row(id, true, BLANK, 0, 0)])
    case Chunk(more, done) =>
      if !s.active then s
      else if done then Commit(Grow(s, more).(active := false), true)
      else Flush(Grow(s, more))
    case StreamReset => Dropped(s.(active := false))
    case Stop => s.(active := false)
    case Interrupt(mark) =>
      if !s.active then s
      else
        var t := s.(active := false);
        Commit(if mark then Mark(t) else t, true)
    case RenderDone => Land(s)
    case CommitReady => Commit(s, true)
    case CommitAll => Commit(s, false)
    case Clear(wipe) => s.(rows := [], committed := 0, cache := if wipe then [] else s.cache)
  }

  /** What the cache shows of the row with an id. */
  function Shown(cache: seq<Piece>, id: string): Text
    decreases |cache|
  {
    if cache == [] then BLANK
    else
      var n := |cache| - 1;
      Join(Shown(cache[..n], id), if cache[n].id == id then cache[n].text else BLANK)
  }
}
