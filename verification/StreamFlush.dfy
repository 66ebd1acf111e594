/** internal/app/model_scrollback.go and internal/app/conv: the flush, the commit and the stream handlers, in place. */
module StreamFlush {
  import opened Wrappers
  import opened FlushSpec

  class Conversation {
    var rows: seq<Row>
    var committedCount: nat
    var streamActive: bool
    var rendering: Option<Snapshot>
    var cache: seq<Piece>

    constructor ()
      ensures State() == EMPTY
    {
      rows, committedCount, streamActive, rendering, cache := [], 0, false, None, [];
    }

    ghost function State(): Chat
      reads this
    {
      Chat(rows, committedCount, streamActive, rendering, cache)
    }

    method FlushStreamingBlocks()
      modifies this`rendering
      ensures State() == Flush(old(State()))
    {
      if rendering.Some? {
        return;
      }
      if |rows| == 0 {
        return;
      }
      var msg := rows[|rows| - 1];
      if !msg.assistant {
        return;
      }
      var thinkingEnd, contentEnd := FinishedEnds(msg.text);
      var slice := Text(Cut(msg.text.thinking, msg.thinkingDone, thinkingEnd),
        Cut(msg.text.content, msg.contentDone, contentEnd));
      if Blank(slice) {
        return;
      }
      rendering := Some(Snapshot(msg.id, |rows| - 1, slice, thinkingEnd, contentEnd));
    }

    static method FinishedEnds(text: FlushSpec.Text) returns (thinkingEnd: nat, contentEnd: nat)
      ensures thinkingEnd == ThinkingEnd(text) && contentEnd == ContentEnd(text)
    {
      thinkingEnd := BlockBoundary.CompletedBlockBoundary(text.thinking);
      if |text.content| > 0 {
        thinkingEnd := |text.thinking|;
      }
      contentEnd := BlockBoundary.CompletedBlockBoundary(text.content);
    }

    /** Drops the result if its row was committed, cleared or replaced meanwhile. */
    method HandleFlushResult()
      modifies this
      ensures State() == Land(old(State()))
    {
      if rendering.None? {
        return;
      }
      var msg := rendering.value;
      rendering := None;
      if msg.index >= |rows| || msg.index < committedCount || rows[msg.index].id != msg.id ||
        !rows[msg.index].assistant {
        return;
      }
      rows := rows[msg.index := rows[msg.index].(thinkingDone := msg.thinkingEnd, contentDone := msg.contentEnd)];
      cache := cache + [Piece(msg.id, msg.slice)];
      if streamActive {
        FlushStreamingBlocks();
      }
    }

    method RenderAndCommit(checkReady: bool)
      modifies this
      ensures State() == Commit(old(State()), checkReady)
    {
      while committedCount < |rows|
        invariant Commit(State(), checkReady) == Commit(old(State()), checkReady)
        decreases |rows| - committedCount
      {
        var i := committedCount;
        if checkReady && i == |rows| - 1 && rows[i].assistant && streamActive {
          break;
        }
        cache := cache + [Piece(rows[i].id, Rest(rows[i]))];
        rows := rows[i := rows[i].(thinkingDone := 0, contentDone := 0)];
        committedCount := i + 1;
      }
    }

    method AppendToLast(text: Text)
      modifies this`rows
      ensures State() == Grow(old(State()), text)
    {
      if |rows| == 0 {
        return;
      }
      var n := |rows| - 1;
      if !rows[n].assistant {
        return;
      }
      rows := rows[n := rows[n].(text := Join(rows[n].text, text))];
    }

    method DropStreamingAssistant()
      modifies this`rows
      ensures State() == Dropped(old(State()))
    {
      var n := |rows|;
      if n <= committedCount {
        return;
      }
      if rows[n - 1].assistant {
        rows := rows[..n - 1];
      }
    }

    /** Looks back for the last assistant row. */
    method MarkLastInterrupted()
      modifies this`rows
      ensures State() == Mark(old(State()))
    {
      var i := |rows|;
      assert rows[..i] == rows;
      while i > 0
        invariant 0 <= i <= |rows| && rows == old(rows)
        invariant LastAssistant(rows[..i]) == LastAssistant(rows)
      {
        i := i - 1;
        assert rows[..i + 1][..i] == rows[..i];
        if rows[i].assistant {
          rows := rows[i := rows[i].(text := Join(rows[i].text, Marker(rows[i].text)))];
          return;
        }
      }
    }

    /** internal/app/conv/update.go: an inference begins. */
    method ApplyPreInfer(id: string)
      modifies this
      ensures State() == Step(old(State()), PreInfer(id))
    {
      streamActive := true;
      RenderAndCommit(true);
      rows := rows + [Row(id, true, BLANK, 0, 0)];
    }

    /** A chunk that arrives after the stream has ended is dropped. */
    method ApplyChunk(more: Text, done: bool)
      modifies this
      ensures State() == Step(old(State()), Chunk(more, done))
    {
      if !streamActive {
        return;
      }
      AppendToLast(more);
      if done {
        streamActive := false;
        RenderAndCommit(true);
        return;
      }
      FlushStreamingBlocks();
    }

    method ApplyStreamReset()
      modifies this
      ensures State() == Step(old(State()), StreamReset)
    {
      streamActive := false;
      DropStreamingAssistant();
    }

    /** The user stops the stream; `mark` says that the last answer calls no tools. */
    method HandleStreamCancel(mark: bool)
      modifies this
      ensures State() == Step(old(State()), Interrupt(mark))
    {
      if !streamActive {
        return;
      }
      streamActive := false;
      if mark {
        MarkLastInterrupted();
      }
      RenderAndCommit(true);
    }
  }
}
