/**
 internal/session/message_convert.go and node_convert.go: messages become transcript nodes made of content blocks, and
 are read back when a session is resumed.
 */
module MessageBlocks {
  import opened Wrappers
  import opened Messages
  import TranscriptReplay

  /** A stretch of text and what it is marked as: nothing, a reminder, or a command. */
  datatype Span = Span(text: string, source: string)

  datatype Block =
    | Text(text: string, source: string)
    | Thought(text: string)
    | ToolUse(id: string, name: string, input: string)
    | ToolOutcome(callId: string, isError: bool, content: string)

  datatype Node = Node(id: string, parentId: string, role: Role, content: seq<Block>)

  function Joined(spans: seq<Span>): string {
    if spans == [] then "" else Joined(spans[..|spans| - 1]) + spans[|spans| - 1].text
  }

  /** Looking for injected text cuts a text into stretches that together are that text, and an empty one into none. */
  ghost predicate WellCut(cut: string -> seq<Span>) {
    forall s :: Joined(cut(s)) == s && (s == "" ==> cut(s) == [])
  }

  // ---------------------------------------------------------------------------
  // One message.

  function TextBlocks(spans: seq<Span>): seq<Block> {
    seq(|spans|, i requires 0 <= i < |spans| => Text(spans[i].text, spans[i].source))
  }

  function UseBlocks(calls: seq<ToolCall>): seq<Block> {
    seq(|calls|, i requires 0 <= i < |calls| => ToolUse(calls[i].id, calls[i].name, calls[i].input))
  }

  function Blocks(m: Message, cut: string -> seq<Span>): seq<Block> {
    match m.role
    case User =>
      if m.result.Some? then [ToolOutcome(m.result.value.callId, m.result.value.isError, m.result.value.content)]
      else TextBlocks(cut(m.content))
    case Assistant => SaidBlocks(m.content, m.thinking) + UseBlocks(m.calls)
    case Notice => []
  }

  function SaidBlocks(content: string, thinking: string): seq<Block> {
    (if thinking != "" then [Thought(thinking)] else []) + (if content != "" then [Text(content, "")] else [])
  }

  method MessageToBlocks(m: Message, cut: string -> seq<Span>) returns (blocks: seq<Block>)
    ensures blocks == Blocks(m, cut)
  {
    match m.role
    case User =>
      if m.result.Some? {
        return [ToolOutcome(m.result.value.callId, m.result.value.isError, m.result.value.content)];
      }
      return TextBlocks(cut(m.content));
    case Assistant =>
      blocks := AssistantContentToBlocks(m.content, m.thinking, m.calls);
    case Notice =>
      return [];
  }

  method AssistantContentToBlocks(content: string, thinking: string, toolCalls: seq<ToolCall>)
    returns (blocks: seq<Block>)
    ensures blocks == SaidBlocks(content, thinking) + UseBlocks(toolCalls)
  {
    blocks := [];
    if thinking != "" {
      blocks := blocks + [Thought(thinking)];
    }
    if content != "" {
      blocks := blocks + [Text(content, "")];
    }
    ghost var before := SaidBlocks(content, thinking);
    assert blocks == before;
    for i := 0 to |toolCalls|
      invariant blocks == before + UseBlocks(toolCalls[..i])
    {
      assert toolCalls[..i + 1] == toolCalls[..i] + [toolCalls[i]];
      OneMoreUseBlock(before, toolCalls[..i], toolCalls[i]);
      blocks := blocks + [ToolUse(toolCalls[i].id, toolCalls[i].name, toolCalls[i].input)];
    }
    assert toolCalls[..|toolCalls|] == toolCalls;
  }

  /** What has been read of a node's blocks. */
  datatype Reading = Reading(content: string, thinking: string, calls: seq<ToolCall>, result: Option<ToolResult>)

  const NOTHING := Reading("", "", [], None)

  function AfterBlock(role: Role, r: Reading, b: Block): Reading {
    match b
    case Text(text, _) => r.(content := r.content + text)
    case Thought(text) => if role.Assistant? then r.(thinking := text) else r
    case ToolUse(id, name, input) => if role.Assistant? then r.(calls := r.calls + [ToolCall(id, name, input)]) else r
    case ToolOutcome(callId, isError, content) =>
      if role.Assistant? then r else r.(result := Some(ToolResult(callId, "", content, isError)))
  }

  function Read(role: Role, blocks: seq<Block>): Reading {
    if blocks == [] then NOTHING else AfterBlock(role, Read(role, blocks[..|blocks| - 1]), blocks[|blocks| - 1])
  }

  /** The message of a node: next to a tool result there is no text. */
  function FromNode(n: Node): Message {
    var r := Read(n.role, n.content);
    Message(n.id, n.role, if r.result.Some? then "" else r.content, r.thinking, r.calls, r.result)
  }

  method ReadBlocks(role: Role, blocks: seq<Block>) returns (content: string, thinking: string, calls: seq<ToolCall>,
                                                             result: Option<ToolResult>)
    ensures Read(role, blocks) == Reading(content, thinking, calls, result)
  {
    content, thinking, calls, result := "", "", [], None;
    for i := 0 to |blocks|
      invariant Read(role, blocks[..i]) == Reading(content, thinking, calls, result)
    {
      assert blocks[..i + 1][..i] == blocks[..i];
      match blocks[i] {
        case Text(text, _) => content := content + text;
        case Thought(text) =>
          if role.Assistant? {
            thinking := text;
          }
        case ToolUse(id, name, input) =>
          if role.Assistant? {
            calls := calls + [ToolCall(id, name, input)];
          }
        case ToolOutcome(callId, isError, text) =>
          if !role.Assistant? {
            result := Some(ToolResult(callId, "", text, isError));
          }
      }
    }
    assert blocks[..|blocks|] == blocks;
  }

  // ---------------------------------------------------------------------------
  // Reading back the blocks of a message.

  lemma ReadOne(role: Role, blocks: seq<Block>, b: Block)
    ensures Read(role, blocks + [b]) == AfterBlock(role, Read(role, blocks), b)
  {
    assert (blocks + [b])[..|blocks|] == blocks;
  }

  lemma {:induction false} ReadTexts(role: Role, spans: seq<Span>)
    ensures Read(role, TextBlocks(spans)) == Reading(Joined(spans), "", [], None)
  {
    if spans != [] {
      var n := |spans| - 1;
      ReadTexts(role, spans[..n]);
      assert TextBlocks(spans) == TextBlocks(spans[..n]) + [Text(spans[n].text, spans[n].source)];
      ReadOne(role, TextBlocks(spans[..n]), Text(spans[n].text, spans[n].source));
    }
  }

  function UseBlock(c: ToolCall): Block {
    ToolUse(c.id, c.name, c.input)
  }

  lemma OneMoreUseBlock(before: seq<Block>, calls: seq<ToolCall>, c: ToolCall)
    ensures before + UseBlocks(calls + [c]) == before + UseBlocks(calls) + [UseBlock(c)]
  {
  }

  lemma ReadsUse(blocks: seq<Block>, r: Reading, calls: seq<ToolCall>, c: ToolCall)
    requires Read(Assistant, blocks) == r.(calls := calls)
    ensures Read(Assistant, blocks + [UseBlock(c)]) == r.(calls := calls + [c])
  {
    ReadOne(Assistant, blocks, UseBlock(c));
  }

  lemma {:induction false} ReadUses(before: seq<Block>, calls: seq<ToolCall>)
    requires Read(Assistant, before).calls == []
    ensures Read(Assistant, before + UseBlocks(calls)) == Read(Assistant, before).(calls := calls)
  {
    if calls == [] {
      assert before + UseBlocks(calls) == before;
    } else {
      var front, c := calls[..|calls| - 1], calls[|calls| - 1];
      assert calls == front + [c];
      ReadUses(before, front);
      OneMoreUseBlock(before, front, c);
      ReadsUse(before + UseBlocks(front), Read(Assistant, before), front, c);
    }
  }

  lemma ReadAssistant(m: Message, cut: string -> seq<Span>)
    requires m.role.Assistant?
    ensures Read(Assistant, Blocks(m, cut)) == Reading(m.content, m.thinking, m.calls, None)
  {
    var thought := if m.thinking != "" then [Thought(m.thinking)] else [];
    var said := if m.content != "" then [Text(m.content, "")] else [];
    assert Read(Assistant, []) == NOTHING;
    assert [] + thought == thought;
    if m.thinking != "" {
      ReadOne(Assistant, [], Thought(m.thinking));
    }
    if m.content != "" {
      ReadOne(Assistant, thought, Text(m.content, ""));
    } else {
      assert thought + said == thought;
    }
    assert "" + m.content == m.content;
    ReadUses(thought + said, m.calls);
  }

  /** What a message has that its node does not: parts that its role does not carry, and the name of the tool. */
  function Stored(m: Message): Message {
    match m.role
    case User =>
      if m.result.Some? then Message(m.id, User, "", "", [], Some(m.result.value.(name := "")))
      else Message(m.id, User, m.content, "", [], None)
    case Assistant => m.(result := None)
    case Notice => m
  }

  lemma ReadResult(r: ToolResult)
    ensures Read(User, [ToolOutcome(r.callId, r.isError, r.content)]) == Reading("", "", [], Some(r.(name := "")))
  {
    var b := ToolOutcome(r.callId, r.isError, r.content);
    assert [b][..0] == [];
    assert Read(User, []) == NOTHING;
  }

  /** Every message that is stored at all reads back as what it stores, whatever the spans its text is cut into. */
  lemma ReadsBack(m: Message, parentId: string, cut: string -> seq<Span>)
    requires WellCut(cut) && !m.role.Notice?
    ensures FromNode(Node(m.id, parentId, m.role, Blocks(m, cut))) == Stored(m)
  {
    if m.role.Assistant? {
      ReadAssistant(m, cut);
    } else if m.result.Some? {
      ReadResult(m.result.value);
    } else {
      ReadTexts(User, cut(m.content));
    }
  }

  /** The recorder records exactly the messages that have some block. */
  lemma RecordedIffBlocks(m: Message, cut: string -> seq<Span>)
    requires WellCut(cut)
    ensures TranscriptReplay.HasBlocks(m) <==> Blocks(m, cut) != []
  {
    assert Joined(cut(m.content)) == m.content;
    if cut(m.content) == [] {
      assert Joined([]) == "";
    }
  }

  // ---------------------------------------------------------------------------
  // A conversation.

  function Id(m: Message, newId: string): string {
    if m.id == "" then newId else m.id
  }

  /** The nodes of the messages that have a role in the transcript, each with the one before it as its parent. */
  function Nodes(msgs: seq<Message>, newId: nat -> string, cut: string -> seq<Span>): (nodes: seq<Node>)
    decreases |msgs|
  {
    if msgs == [] then []
    else
      var n := |msgs| - 1;
      var before, m := Nodes(msgs[..n], newId, cut), msgs[n];
      if m.role.Notice? then before
      else
        var parentId := if before == [] then "" else before[|before| - 1].id;
        before + [Node(Id(m, newId(n)), parentId, m.role, Blocks(m, cut))]
  }

  method MessagesToNodes(msgs: seq<Message>, newId: nat -> string, cut: string -> seq<Span>) returns (nodes: seq<Node>)
    ensures nodes == Nodes(msgs, newId, cut)
  {
    nodes := [];
    var prevId := "";
    for i := 0 to |msgs|
      invariant nodes == Nodes(msgs[..i], newId, cut)
      invariant prevId == if nodes == [] then "" else nodes[|nodes| - 1].id
    {
      assert msgs[..i + 1][..i] == msgs[..i];
      var m := msgs[i];
      if m.role.Notice? {
        continue;
      }
      var id := if m.id == "" then newId(i) else m.id;
      var content := MessageToBlocks(m, cut);
      nodes := nodes + [Node(id, prevId, m.role, content)];
      prevId := id;
    }
    assert msgs[..|msgs|] == msgs;
  }

  /** The tool calls of a node, in order. */
  function Uses(blocks: seq<Block>): seq<ToolCall> {
    if blocks == [] then []
    else
      var n := |blocks| - 1;
      Uses(blocks[..n]) +
        if blocks[n].ToolUse? then [ToolCall(blocks[n].id, blocks[n].name, blocks[n].input)] else []
  }

  function AllUses(nodes: seq<Node>): seq<ToolCall> {
    if nodes == [] then []
    else
      var n := |nodes| - 1;
      AllUses(nodes[..n]) + if nodes[n].role.Assistant? then Uses(nodes[n].content) else []
  }

  /** The name of the last of these calls with an id, or none. */
  function NameOf(calls: seq<ToolCall>, id: string): string {
    if calls == [] then ""
    else if calls[|calls| - 1].id == id then calls[|calls| - 1].name
    else NameOf(calls[..|calls| - 1], id)
  }

  function Backfilled(m: Message, calls: seq<ToolCall>): Message {
    if m.result.Some? && m.result.value.name == "" then
      m.(result := Some(m.result.value.(name := NameOf(calls, m.result.value.callId))))
    else m
  }

  function Restored(nodes: seq<Node>): (msgs: seq<Message>)
    ensures |msgs| == |nodes|
  {
    seq(|nodes|, i requires 0 <= i < |nodes| => Backfilled(FromNode(nodes[i]), AllUses(nodes)))
  }

  /** The names as they are indexed: the last call with an id decides. */
  function Names(calls: seq<ToolCall>): map<string, string> {
    if calls == [] then map[]
    else
      var n := |calls| - 1;
      Names(calls[..n])[calls[n].id := calls[n].name]
  }

  lemma {:induction false} NamesAre(calls: seq<ToolCall>, id: string)
    ensures (if id in Names(calls) then Names(calls)[id] else "") == NameOf(calls, id)
  {
    if calls != [] {
      NamesAre(calls[..|calls| - 1], id);
    }
  }

  lemma NamesOneMore(calls: seq<ToolCall>, c: ToolCall)
    ensures Names(calls + [c]) == Names(calls)[c.id := c.name]
  {
    assert (calls + [c])[..|calls|] == calls;
  }

  lemma OneMoreUse(calls: seq<ToolCall>, blocks: seq<Block>, i: nat)
    requires i < |blocks|
    ensures var before := calls + Uses(blocks[..i]);
      Names(calls + Uses(blocks[..i + 1])) ==
        if blocks[i].ToolUse? then Names(before)[blocks[i].id := blocks[i].name] else Names(before)
  {
    assert blocks[..i + 1][..i] == blocks[..i];
    if blocks[i].ToolUse? {
      var c := ToolCall(blocks[i].id, blocks[i].name, blocks[i].input);
      NamesOneMore(calls + Uses(blocks[..i]), c);
      assert calls + Uses(blocks[..i]) + [c] == calls + (Uses(blocks[..i]) + [c]);
    } else {
      assert Uses(blocks[..i]) + [] == Uses(blocks[..i]);
    }
  }

  method IndexUses(blocks: seq<Block>, before: map<string, string>, ghost calls: seq<ToolCall>)
    returns (names: map<string, string>)
    requires before == Names(calls)
    ensures names == Names(calls + Uses(blocks))
  {
    names := before;
    assert calls + [] == calls;
    for i := 0 to |blocks|
      invariant names == Names(calls + Uses(blocks[..i]))
    {
      OneMoreUse(calls, blocks, i);
      if blocks[i].ToolUse? {
        names := names[blocks[i].id := blocks[i].name];
      }
    }
    assert blocks[..|blocks|] == blocks;
  }

  method ToolNames(nodes: seq<Node>) returns (names: map<string, string>)
    ensures names == Names(AllUses(nodes))
  {
    names := map[];
    for i := 0 to |nodes|
      invariant names == Names(AllUses(nodes[..i]))
    {
      assert nodes[..i + 1][..i] == nodes[..i];
      if nodes[i].role.Assistant? {
        names := IndexUses(nodes[i].content, names, AllUses(nodes[..i]));
      } else {
        assert AllUses(nodes[..i]) + [] == AllUses(nodes[..i]);
      }
    }
    assert nodes[..|nodes|] == nodes;
  }

  method MessagesFromNodes(nodes: seq<Node>) returns (msgs: seq<Message>)
    ensures msgs == Restored(nodes)
  {
    var names := ToolNames(nodes);
    msgs := [];
    for i := 0 to |nodes|
      invariant msgs == Restored(nodes)[..i]
    {
      var m := MessageFromNode(nodes[i], names, AllUses(nodes));
      OneMoreRestored(nodes, i);
      msgs := msgs + [m];
    }
  }

  lemma OneMoreRestored(nodes: seq<Node>, i: nat)
    requires i < |nodes|
    ensures Restored(nodes)[..i + 1] == Restored(nodes)[..i] + [Backfilled(FromNode(nodes[i]), AllUses(nodes))]
  {
    RestoredAt(nodes, i);
    OneMoreTaken(Restored(nodes), i);
  }

  lemma RestoredAt(nodes: seq<Node>, i: nat)
    requires i < |nodes|
    ensures Restored(nodes)[i] == Backfilled(FromNode(nodes[i]), AllUses(nodes))
  {
  }

  lemma OneMoreTaken<T>(s: seq<T>, i: nat)
    requires i < |s|
    ensures s[..i + 1] == s[..i] + [s[i]]
  {
  }

  method MessageFromNode(n: Node, names: map<string, string>, ghost calls: seq<ToolCall>) returns (m: Message)
    requires names == Names(calls)
    ensures m == Backfilled(FromNode(n), calls)
  {
    var content, thinking, toolCalls, result := ReadBlocks(n.role, n.content);
    var text := if result.Some? then "" else content;
    m := Message(n.id, n.role, text, thinking, toolCalls, result);
    if result.Some? && result.value.name == "" {
      NamesAre(calls, result.value.callId);
      if result.value.callId in names {
        m := m.(result := Some(result.value.(name := names[result.value.callId])));
      }
    }
  }

  // ---------------------------------------------------------------------------
  // The round trip.

  function AllCalls(msgs: seq<Message>): seq<ToolCall> {
    if msgs == [] then []
    else
      var n := |msgs| - 1;
      AllCalls(msgs[..n]) + if msgs[n].role.Assistant? then msgs[n].calls else []
  }

  /**
   The message survives being stored: it has an id and a role in the transcript and only parts that its role carries,
   and a tool result names the tool of the last call in the conversation that has its call id.
   */
  predicate Survives(m: Message, calls: seq<ToolCall>) {
    && m.id != ""
    && match m.role
       case User =>
         && m.thinking == "" && m.calls == []
         && (m.result.Some? ==> m.content == "" && m.result.value.name == NameOf(calls, m.result.value.callId))
       case Assistant => m.result.None?
       case Notice => false
  }

  lemma {:induction false} UsesOfAssistant(m: Message, cut: string -> seq<Span>)
    requires m.role.Assistant?
    ensures Uses(Blocks(m, cut)) == m.calls
  {
    var thought := if m.thinking != "" then [Thought(m.thinking)] else [];
    var said := if m.content != "" then [Text(m.content, "")] else [];
    NoUses(thought + said);
    UsesAfter(thought + said, m.calls);
  }

  lemma {:induction false} NoUses(blocks: seq<Block>)
    requires forall i :: 0 <= i < |blocks| ==> !blocks[i].ToolUse?
    ensures Uses(blocks) == []
  {
    if blocks != [] {
      NoUses(blocks[..|blocks| - 1]);
    }
  }

  lemma UsesOneMore(blocks: seq<Block>, c: ToolCall)
    ensures Uses(blocks + [UseBlock(c)]) == Uses(blocks) + [c]
  {
    assert (blocks + [UseBlock(c)])[..|blocks|] == blocks;
  }

  lemma {:induction false} UsesAfter(before: seq<Block>, calls: seq<ToolCall>)
    requires Uses(before) == []
    ensures Uses(before + UseBlocks(calls)) == calls
  {
    if calls == [] {
      assert before + UseBlocks(calls) == before;
    } else {
      var front, c := calls[..|calls| - 1], calls[|calls| - 1];
      assert calls == front + [c];
      UsesAfter(before, front);
      OneMoreUseBlock(before, front, c);
      UsesOneMore(before + UseBlocks(front), c);
    }
  }

  ghost predicate NoNotices(msgs: seq<Message>) {
    forall i :: 0 <= i < |msgs| ==> !msgs[i].role.Notice?
  }

  lemma OneMoreNode(msgs: seq<Message>, newId: nat -> string, cut: string -> seq<Span>)
    requires msgs != []
    ensures var n := |msgs| - 1;
      |Nodes(msgs, newId, cut)| == |Nodes(msgs[..n], newId, cut)| + if msgs[n].role.Notice? then 0 else 1
  {
  }

  lemma NoMoreNotices(msgs: seq<Message>)
    requires msgs != []
    ensures NoNotices(msgs) <==> NoNotices(msgs[..|msgs| - 1]) && !msgs[|msgs| - 1].role.Notice?
  {
    var before := msgs[..|msgs| - 1];
    if NoNotices(before) && !msgs[|msgs| - 1].role.Notice? {
      forall i | 0 <= i < |msgs| ensures !msgs[i].role.Notice? {
        assert i < |before| ==> before[i] == msgs[i];
      }
    }
  }

  lemma {:induction false} OneNodeEach(msgs: seq<Message>, newId: nat -> string, cut: string -> seq<Span>)
    ensures |Nodes(msgs, newId, cut)| <= |msgs|
    ensures |Nodes(msgs, newId, cut)| == |msgs| <==> NoNotices(msgs)
    decreases |msgs|
  {
    if msgs != [] {
      OneMoreNode(msgs, newId, cut);
      NoMoreNotices(msgs);
      OneNodeEach(msgs[..|msgs| - 1], newId, cut);
    }
  }

  lemma {:induction false} SameUses(msgs: seq<Message>, newId: nat -> string, cut: string -> seq<Span>)
    requires NoNotices(msgs)
    ensures AllUses(Nodes(msgs, newId, cut)) == AllCalls(msgs)
    decreases |msgs|
  {
    if msgs != [] {
      var n := |msgs| - 1;
      SameUses(msgs[..n], newId, cut);
      var before, nodes := Nodes(msgs[..n], newId, cut), Nodes(msgs, newId, cut);
      assert nodes[..|before|] == before;
      if msgs[n].role.Assistant? {
        UsesOfAssistant(msgs[n], cut);
      }
    }
  }

  lemma {:induction false} NodeAt(msgs: seq<Message>, newId: nat -> string, cut: string -> seq<Span>, i: nat)
    returns (parentId: string)
    requires NoNotices(msgs) && i < |msgs|
    ensures |Nodes(msgs, newId, cut)| == |msgs|
    ensures Nodes(msgs, newId, cut)[i] == Node(Id(msgs[i], newId(i)), parentId, msgs[i].role, Blocks(msgs[i], cut))
    decreases |msgs|
  {
    var n := |msgs| - 1;
    OneNodeEach(msgs, newId, cut);
    OneNodeEach(msgs[..n], newId, cut);
    if i < n {
      parentId := NodeAt(msgs[..n], newId, cut, i);
    } else {
      parentId := Nodes(msgs, newId, cut)[n].parentId;
    }
  }

  lemma SurvivesIff(m: Message, id: string, parentId: string, cut: string -> seq<Span>, calls: seq<ToolCall>)
    requires WellCut(cut) && !m.role.Notice? && id != "" && (m.id != "" ==> id == m.id)
    ensures Backfilled(FromNode(Node(id, parentId, m.role, Blocks(m, cut))), calls) == m <==> Survives(m, calls)
  {
    var named := m.(id := id);
    assert Blocks(named, cut) == Blocks(m, cut);
    ReadsBack(named, parentId, cut);
  }

  /** A conversation comes back from the transcript as it was if and only if each of its messages survives. */
  lemma RoundTripIff(msgs: seq<Message>, newId: nat -> string, cut: string -> seq<Span>)
    requires WellCut(cut) && forall n :: newId(n) != ""
    ensures Restored(Nodes(msgs, newId, cut)) == msgs <==>
      forall i :: 0 <= i < |msgs| ==> Survives(msgs[i], AllCalls(msgs))
  {
    OneNodeEach(msgs, newId, cut);
    if NoNotices(msgs) {
      SameUses(msgs, newId, cut);
      forall i | 0 <= i < |msgs|
        ensures Restored(Nodes(msgs, newId, cut))[i] == msgs[i] <==> Survives(msgs[i], AllCalls(msgs))
      {
        var parentId := NodeAt(msgs, newId, cut, i);
        SurvivesIff(msgs[i], Id(msgs[i], newId(i)), parentId, cut, AllCalls(msgs));
      }
    } else {
      var i :| 0 <= i < |msgs| && msgs[i].role.Notice?;
      assert !Survives(msgs[i], AllCalls(msgs));
    }
  }
}
