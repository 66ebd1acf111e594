/** The wire message shared by the agent's chain, the provider sanitizer and the session recorder. */
module Messages {
  import opened Wrappers

  datatype Role = User | Assistant | Notice

  /** A tool invocation requested by the model; `input` is the raw JSON text of its arguments. */
  datatype ToolCall = ToolCall(id: string, name: string, input: string)

  datatype ToolResult = ToolResult(callId: string, name: string, content: string, isError: bool)

  /** A tool result rides on a user message; `result` tells it apart from text the user typed. */
  datatype Message = Message(
    id: string,
    role: Role,
    content: string,
    thinking: string,
    calls: seq<ToolCall>,
    result: Option<ToolResult>)

  predicate IsResult(m: Message) {
    m.result.Some?
  }

  /** The call id a result answers; of no interest on any other message. */
  function ResultId(m: Message): string {
    if m.result.Some? then m.result.value.callId else ""
  }

  /** The messages whose calls must be answered: a result never counts as a caller. */
  predicate BearsCalls(m: Message) {
    !IsResult(m) && m.role.Assistant? && m.calls != []
  }

  /** Neither a tool result nor a caller: the sanitizer always keeps such a message. */
  predicate IsPlain(m: Message) {
    !IsResult(m) && !BearsCalls(m)
  }

  ghost predicate HasCall(m: Message, id: string) {
    Calls(m.calls, id)
  }

  ghost predicate Calls(calls: seq<ToolCall>, id: string) {
    exists i :: 0 <= i < |calls| && calls[i].id == id
  }

  ghost predicate DistinctCallIds(calls: seq<ToolCall>) {
    forall i, j :: 0 <= i < j < |calls| ==> calls[i].id != calls[j].id
  }
}
