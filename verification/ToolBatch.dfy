/** internal/core/agent_impl.go, execTools: which answers a batch of tool calls leaves in the chain, word for word. */
module ToolBatch {
  import opened Wrappers
  import opened Messages
  import opened ChainEvents
  import opened TurnSpec

  /** How many of the first `i` calls name a known tool: the rank of call `i` among the known ones. */
  function Known(env: Env, calls: seq<ToolCall>, i: nat): (n: nat)
    requires i <= |calls|
    ensures n <= i
  {
    if i == 0 then 0 else Known(env, calls, i - 1) + if env.knownTool(calls[i - 1].name) then 1 else 0
  }

  function Unknown(env: Env, calls: seq<ToolCall>, i: nat): nat
    requires i <= |calls|
  {
    i - Known(env, calls, i)
  }

  /** The answers to unknown tools come first, then those of the executed ones, both in call order. */
  function Place(env: Env, calls: seq<ToolCall>, i: nat): nat
    requires i < |calls|
  {
    if env.knownTool(calls[i].name) then Unknown(env, calls, |calls|) + Known(env, calls, i)
    else Unknown(env, calls, i)
  }

  /** What call `i` is answered with, when the tools of the batch are executed from number `first` on. */
  function AnswerTo(env: Env, calls: seq<ToolCall>, i: nat, first: nat): ToolResult
    requires i < |calls|
  {
    var c := calls[i];
    if env.knownTool(c.name) then
      var out := env.execute(first + Known(env, calls, i));
      ToolResult(c.id, c.name, out.content, out.failed)
    else ToolResult(c.id, c.name, "unknown tool: " + c.name, true)
  }

  /** The message that carries a result: the user's, with nothing but the result. */
  function Carrier(id: string, r: ToolResult): Message {
    Message(id, User, "", "", [], Some(r))
  }

  // ---------------------------------------------------------------------------
  // The two lists, grown call by call.

  function Failures(env: Env, calls: seq<ToolCall>, i: nat, ids: nat): (rs: seq<Message>)
    requires i <= |calls|
    ensures |rs| == Unknown(env, calls, i)
  {
    if i == 0 then []
    else if env.knownTool(calls[i - 1].name) then Failures(env, calls, i - 1, ids)
    else
      var m := Carrier(env.freshId(ids + Unknown(env, calls, i - 1)), AnswerTo(env, calls, i - 1, 0));
      Failures(env, calls, i - 1, ids) + [m]
  }

  function Tasks(env: Env, calls: seq<ToolCall>, i: nat): (tasks: seq<ToolCall>)
    requires i <= |calls|
    ensures |tasks| == Known(env, calls, i)
  {
    if i == 0 then []
    else Tasks(env, calls, i - 1) + if env.knownTool(calls[i - 1].name) then [calls[i - 1]] else []
  }

  function Outputs(env: Env, tasks: seq<ToolCall>, n: nat, first: nat, ids: nat): (rs: seq<Message>)
    requires n <= |tasks|
    ensures |rs| == n
  {
    if n == 0 then []
    else
      var c, out := tasks[n - 1], env.execute(first + n - 1);
      Outputs(env, tasks, n - 1, first, ids) +
        [Carrier(env.freshId(ids + n - 1), ToolResult(c.id, c.name, out.content, out.failed))]
  }

  /** How many of `n` executions from number `first` on did not fail. */
  function Worked(env: Env, first: nat, n: nat): nat {
    if n == 0 then 0 else Worked(env, first, n - 1) + if env.execute(first + n - 1).failed then 0 else 1
  }

  lemma {:induction false} KnownGrows(env: Env, calls: seq<ToolCall>, i: nat, n: nat)
    requires i <= n <= |calls|
    ensures Known(env, calls, i) <= Known(env, calls, n) && Unknown(env, calls, i) <= Unknown(env, calls, n)
  {
    if i < n {
      KnownGrows(env, calls, i, n - 1);
    }
  }

  lemma {:induction false} FailureAt(env: Env, calls: seq<ToolCall>, i: nat, n: nat, ids: nat, first: nat)
    requires i < n <= |calls| && !env.knownTool(calls[i].name)
    ensures Unknown(env, calls, i) < Unknown(env, calls, n)
    ensures Failures(env, calls, n, ids)[Unknown(env, calls, i)] ==
      Carrier(env.freshId(ids + Unknown(env, calls, i)), AnswerTo(env, calls, i, first))
  {
    if i < n - 1 {
      FailureAt(env, calls, i, n - 1, ids, first);
    }
  }

  lemma {:induction false} TaskAt(env: Env, calls: seq<ToolCall>, i: nat, n: nat)
    requires i < n <= |calls| && env.knownTool(calls[i].name)
    ensures Known(env, calls, i) < Known(env, calls, n)
    ensures Tasks(env, calls, n)[Known(env, calls, i)] == calls[i]
  {
    if i < n - 1 {
      TaskAt(env, calls, i, n - 1);
    }
  }

  lemma {:induction false} OutputAt(env: Env, tasks: seq<ToolCall>, j: nat, n: nat, first: nat, ids: nat)
    requires j < n <= |tasks|
    ensures var out := env.execute(first + j);
      Outputs(env, tasks, n, first, ids)[j] ==
      Carrier(env.freshId(ids + j), ToolResult(tasks[j].id, tasks[j].name, out.content, out.failed))
  {
    if j < n - 1 {
      OutputAt(env, tasks, j, n - 1, first, ids);
    }
  }

  // ---------------------------------------------------------------------------
  // The phases compute these lists.

  /** From `a` on, these results were appended, and observers heard of nothing else. */
  ghost predicate Gains(a: AgentState, b: AgentState, rs: seq<Message>) {
    && b.messages == a.messages + rs && b.asked.ids == a.asked.ids + |rs|
    && b.lastTotalInputTokens == a.lastTotalInputTokens
    && b.events == a.events + Reported(rs)
  }

  ghost function Reported(rs: seq<Message>): (events: seq<Event>)
    ensures |events| == |rs| && forall i :: 0 <= i < |rs| ==> events[i] == Appended(rs[i])
  {
    seq(|rs|, i requires 0 <= i < |rs| => Appended(rs[i]))
  }

  lemma ReportedBoth(rs: seq<Message>, ts: seq<Message>)
    ensures Reported(rs + ts) == Reported(rs) + Reported(ts)
  {
  }

  /** Of the first `looks` looks at the context, those from number `cut` on see it cancelled, and no others. */
  ghost predicate CutAt(env: Env, cut: nat, looks: nat) {
    forall k: nat :: k < looks ==> (env.canceled(k) <==> cut <= k)
  }

  lemma GainsOne(env: Env, a: AgentState, b: AgentState, rs: seq<Message>, c: ToolCall, content: string, failed: bool)
    requires Gains(a, b, rs)
    ensures Gains(a, Append(env, b, ResultMessage(c, content, failed)),
      rs + [Carrier(env.freshId(a.asked.ids + |rs|), ToolResult(c.id, c.name, content, failed))])
  {
    var m := Stamped(env, b, ResultMessage(c, content, failed));
    ReportedBoth(rs, [m]);
    assert Reported([m]) == [Appended(m)];
  }

  /** How many calls phase one gets to before the cancellation. */
  function Reached(calls: seq<ToolCall>, looks: nat, cut: nat): nat {
    if looks + |calls| <= cut then |calls| else if looks <= cut then cut - looks else 0
  }

  /** After the first `i` calls. */
  ghost predicate PhaseOne(env: Env, start: AgentState, calls: seq<ToolCall>, i: nat, a: AgentState,
                           tasks: seq<ToolCall>)
    requires i <= |calls|
  {
    && Gains(start, a, Failures(env, calls, i, start.asked.ids)) && tasks == Tasks(env, calls, i)
    && a.asked.executions == start.asked.executions
  }

  lemma ResolveStep(env: Env, calls: seq<ToolCall>, i: nat, a: AgentState, tasks: seq<ToolCall>)
    requires i < |calls|
    ensures Resolve(env, a, calls[i..], tasks) ==
      if env.canceled(a.asked.looks) then (Looked(a), tasks)
      else if env.knownTool(calls[i].name) then Resolve(env, Looked(a), calls[i + 1..], tasks + [calls[i]])
      else
        Resolve(env, Append(env, Looked(a), ResultMessage(calls[i], "unknown tool: " + calls[i].name, true)),
                calls[i + 1..], tasks)
  {
    assert calls[i..][0] == calls[i] && calls[i..][1..] == calls[i + 1..];
  }

  lemma OneMoreFailure(env: Env, start: AgentState, calls: seq<ToolCall>, i: nat, a: AgentState, tasks: seq<ToolCall>)
    requires i < |calls| && !env.knownTool(calls[i].name) && PhaseOne(env, start, calls, i, a, tasks)
    ensures var m := ResultMessage(calls[i], "unknown tool: " + calls[i].name, true);
      PhaseOne(env, start, calls, i + 1, Append(env, Looked(a), m), tasks)
  {
    var rs := Failures(env, calls, i, start.asked.ids);
    GainsOne(env, start, Looked(a), rs, calls[i], "unknown tool: " + calls[i].name, true);
  }

  /** Phase one at its end: after the calls it reached, and one more look if it was cut short. */
  ghost predicate EndsPhaseOne(env: Env, start: AgentState, calls: seq<ToolCall>, cut: nat, b: AgentState,
                               tasks: seq<ToolCall>)
  {
    var n := Reached(calls, start.asked.looks, cut);
    && PhaseOne(env, start, calls, n, b, tasks)
    && b.asked.looks == start.asked.looks + if n < |calls| then n + 1 else n
  }

  lemma {:induction false} ResolveIs(env: Env, start: AgentState, calls: seq<ToolCall>, i: nat, a: AgentState,
                                     tasks: seq<ToolCall>, cut: nat)
    requires CutAt(env, cut, start.asked.looks + |calls|) && i <= Reached(calls, start.asked.looks, cut)
    requires PhaseOne(env, start, calls, i, a, tasks) && a.asked.looks == start.asked.looks + i
    ensures var (b, ts) := Resolve(env, a, calls[i..], tasks); EndsPhaseOne(env, start, calls, cut, b, ts)
    decreases |calls| - i
  {
    if i < |calls| {
      ResolveStep(env, calls, i, a, tasks);
      assert env.canceled(a.asked.looks) <==> i == Reached(calls, start.asked.looks, cut);
      if !env.canceled(a.asked.looks) {
        if env.knownTool(calls[i].name) {
          ResolveIs(env, start, calls, i + 1, Looked(a), tasks + [calls[i]], cut);
        } else {
          OneMoreFailure(env, start, calls, i, a, tasks);
          var m := ResultMessage(calls[i], "unknown tool: " + calls[i].name, true);
          ResolveIs(env, start, calls, i + 1, Append(env, Looked(a), m), tasks, cut);
        }
      }
    }
  }

  /** How many of `n` results phase three records before the cancellation. */
  function Recorded(n: nat, looks: nat, cut: nat): nat {
    if looks + n <= cut then n else if looks <= cut then cut - looks else 0
  }

  lemma RecordStep(env: Env, tasks: seq<ToolCall>, i: nat, a: AgentState, first: nat, uses: nat)
    requires i < |tasks|
    ensures var out := env.execute(first + i);
      Record(env, a, tasks[i..], first + i, uses) ==
      if env.canceled(a.asked.looks) then (Looked(a), uses)
      else
        Record(env, Append(env, Looked(a), ResultMessage(tasks[i], out.content, out.failed)), tasks[i + 1..],
               first + (i + 1), if out.failed then uses else uses + 1)
  {
    assert tasks[i..][0] == tasks[i] && tasks[i..][1..] == tasks[i + 1..];
  }

  /** After the first `i` results. */
  ghost predicate PhaseThree(env: Env, start: AgentState, tasks: seq<ToolCall>, i: nat, a: AgentState, first: nat,
                             uses: nat)
    requires i <= |tasks|
  {
    Gains(start, a, Outputs(env, tasks, i, first, start.asked.ids)) && uses == Worked(env, first, i)
  }

  lemma OneMoreOutput(env: Env, start: AgentState, tasks: seq<ToolCall>, i: nat, a: AgentState, first: nat, uses: nat)
    requires i < |tasks| && PhaseThree(env, start, tasks, i, a, first, uses)
    ensures var out := env.execute(first + i);
      PhaseThree(env, start, tasks, i + 1, Append(env, Looked(a), ResultMessage(tasks[i], out.content, out.failed)),
                 first, if out.failed then uses else uses + 1)
  {
    var out := env.execute(first + i);
    GainsOne(env, start, Looked(a), Outputs(env, tasks, i, first, start.asked.ids), tasks[i], out.content, out.failed);
  }

  lemma {:induction false} RecordIs(env: Env, start: AgentState, tasks: seq<ToolCall>, i: nat, a: AgentState,
                                    first: nat, uses: nat, cut: nat)
    requires CutAt(env, cut, start.asked.looks + |tasks|) && i <= Recorded(|tasks|, start.asked.looks, cut)
    requires PhaseThree(env, start, tasks, i, a, first, uses) && a.asked.looks == start.asked.looks + i
    ensures var (b, used) := Record(env, a, tasks[i..], first + i, uses);
      PhaseThree(env, start, tasks, Recorded(|tasks|, start.asked.looks, cut), b, first, used)
    decreases |tasks| - i
  {
    if i < |tasks| {
      RecordStep(env, tasks, i, a, first, uses);
      if !env.canceled(a.asked.looks) {
        OneMoreOutput(env, start, tasks, i, a, first, uses);
        var out := env.execute(first + i);
        RecordIs(env, start, tasks, i + 1, Append(env, Looked(a), ResultMessage(tasks[i], out.content, out.failed)),
                 first, if out.failed then uses else uses + 1, cut);
      }
    }
  }

  // ---------------------------------------------------------------------------
  // The batch.

  /** How many results of known tools are recorded: none when phase one was cut short. */
  function Done(env: Env, calls: seq<ToolCall>, looks: nat, cut: nat): (n: nat)
    ensures n <= Known(env, calls, |calls|)
  {
    if cut < looks + |calls| then 0 else Recorded(Known(env, calls, |calls|), looks + |calls|, cut)
  }

  /** How many results the batch leaves. */
  function Left(env: Env, calls: seq<ToolCall>, looks: nat, cut: nat): nat {
    Unknown(env, calls, Reached(calls, looks, cut)) + Done(env, calls, looks, cut)
  }

  lemma GainsBoth(a: AgentState, b: AgentState, c: AgentState, rs: seq<Message>, ts: seq<Message>)
    requires Gains(a, b, rs) && Gains(b, c, ts)
    ensures Gains(a, c, rs + ts)
  {
    ReportedBoth(rs, ts);
    assert a.messages + rs + ts == a.messages + (rs + ts);
    assert a.events + Reported(rs) + Reported(ts) == a.events + (Reported(rs) + Reported(ts));
  }

  /** The results of the first `n` calls, of whose known ones `done` were recorded. */
  function Batch(env: Env, calls: seq<ToolCall>, n: nat, done: nat, first: nat, ids: nat): (rs: seq<Message>)
    requires n <= |calls| && done <= Known(env, calls, n)
    ensures |rs| == Unknown(env, calls, n) + done
  {
    Failures(env, calls, n, ids) + Outputs(env, Tasks(env, calls, n), done, first, ids + Unknown(env, calls, n))
  }

  /** When phase one was cut short, phase three records nothing. */
  lemma DoneIs(env: Env, calls: seq<ToolCall>, looks: nat, cut: nat)
    ensures var n := Reached(calls, looks, cut);
      var left := looks + if n < |calls| then n + 1 else n;
      && Recorded(Known(env, calls, n), left, cut) == Done(env, calls, looks, cut) <= Known(env, calls, n)
      && (n < |calls| ==> Done(env, calls, looks, cut) == 0)
  {
  }

  function Started(a: AgentState, tasks: nat): AgentState {
    a.(asked := a.asked.(executions := a.asked.executions + tasks))
  }

  /** Phase three by itself. */
  lemma RecordAll(env: Env, start: AgentState, tasks: seq<ToolCall>, first: nat, cut: nat)
    requires CutAt(env, cut, start.asked.looks + |tasks|)
    ensures var (b, uses) := Record(env, start, tasks, first, 0);
      PhaseThree(env, start, tasks, Recorded(|tasks|, start.asked.looks, cut), b, first, uses)
  {
    assert tasks[0..] == tasks;
    RecordIs(env, start, tasks, 0, start, first, 0, cut);
  }

  /** Phase three, from where phase one ended. */
  lemma AfterPhaseOne(env: Env, a: AgentState, calls: seq<ToolCall>, resolved: AgentState, tasks: seq<ToolCall>,
                      n: nat, cut: nat)
    requires n <= |calls| && PhaseOne(env, a, calls, n, resolved, tasks)
    requires CutAt(env, cut, resolved.asked.looks + |tasks|)
    ensures var (b, uses) := Record(env, Started(resolved, |tasks|), tasks, a.asked.executions, 0);
      var done := Recorded(|tasks|, resolved.asked.looks, cut);
      && Gains(a, b, Batch(env, calls, n, done, a.asked.executions, a.asked.ids))
      && uses == Worked(env, a.asked.executions, done)
  {
    var first, started := a.asked.executions, Started(resolved, |tasks|);
    RecordAll(env, started, tasks, first, cut);
    var done := Recorded(|tasks|, resolved.asked.looks, cut);
    GainsBoth(a, started, Record(env, started, tasks, first, 0).0, Failures(env, calls, n, a.asked.ids),
              Outputs(env, tasks, done, first, started.asked.ids));
  }

  lemma ExecToolsIs(env: Env, a: AgentState, calls: seq<ToolCall>)
    ensures var (resolved, tasks) := Resolve(env, a, calls, []);
      ExecTools(env, a, calls) ==
      Record(env, Started(resolved, |tasks|), tasks, resolved.asked.executions, 0)
  {
  }

  /** What the batch comes to: its results, and how many executions it counts. */
  ghost predicate IsBatch(env: Env, a: AgentState, calls: seq<ToolCall>, cut: nat, b: AgentState, uses: nat) {
    var n, done := Reached(calls, a.asked.looks, cut), Done(env, calls, a.asked.looks, cut);
    && done <= Known(env, calls, n) && (n < |calls| ==> done == 0)
    && Gains(a, b, Batch(env, calls, n, done, a.asked.executions, a.asked.ids))
    && uses == Worked(env, a.asked.executions, done)
  }

  lemma BatchFromPhaseOne(env: Env, a: AgentState, calls: seq<ToolCall>, resolved: AgentState, tasks: seq<ToolCall>,
                          cut: nat)
    requires EndsPhaseOne(env, a, calls, cut, resolved, tasks)
    requires CutAt(env, cut, a.asked.looks + 2 * |calls| + 1)
    ensures var (b, uses) := Record(env, Started(resolved, |tasks|), tasks, a.asked.executions, 0);
      IsBatch(env, a, calls, cut, b, uses)
  {
    DoneIs(env, calls, a.asked.looks, cut);
    AfterPhaseOne(env, a, calls, resolved, tasks, Reached(calls, a.asked.looks, cut), cut);
  }

  lemma BatchIs(env: Env, a: AgentState, calls: seq<ToolCall>, cut: nat)
    requires CutAt(env, cut, a.asked.looks + 2 * |calls| + 1)
    ensures var (b, uses) := ExecTools(env, a, calls); IsBatch(env, a, calls, cut, b, uses)
  {
    assert calls[0..] == calls;
    ResolveIs(env, a, calls, 0, a, [], cut);
    ExecToolsIs(env, a, calls);
    var (resolved, tasks) := Resolve(env, a, calls, []);
    BatchFromPhaseOne(env, a, calls, resolved, tasks, cut);
  }

  lemma FailureInPlace(env: Env, calls: seq<ToolCall>, i: nat, n: nat, done: nat, first: nat, ids: nat)
    requires i < |calls| && n <= |calls| && done <= Known(env, calls, n) && (n < |calls| ==> done == 0)
    requires !env.knownTool(calls[i].name) && Place(env, calls, i) < Unknown(env, calls, n) + done
    ensures Batch(env, calls, n, done, first, ids)[Place(env, calls, i)] ==
      Carrier(env.freshId(ids + Place(env, calls, i)), AnswerTo(env, calls, i, first))
  {
    if n <= i {
      KnownGrows(env, calls, n, i);
    }
    FailureAt(env, calls, i, n, ids, first);
  }

  lemma OutputOfCall(env: Env, calls: seq<ToolCall>, i: nat, done: nat, first: nat, ids: nat)
    requires i < |calls| && env.knownTool(calls[i].name) && Known(env, calls, i) < done <= Known(env, calls, |calls|)
    ensures Outputs(env, Tasks(env, calls, |calls|), done, first, ids)[Known(env, calls, i)] ==
      Carrier(env.freshId(ids + Known(env, calls, i)), AnswerTo(env, calls, i, first))
  {
    TaskAt(env, calls, i, |calls|);
    OutputAt(env, Tasks(env, calls, |calls|), Known(env, calls, i), done, first, ids);
  }

  lemma OutputInPlace(env: Env, calls: seq<ToolCall>, i: nat, done: nat, first: nat, ids: nat)
    requires i < |calls| && env.knownTool(calls[i].name) && Known(env, calls, i) < done <= Known(env, calls, |calls|)
    ensures var rs := Batch(env, calls, |calls|, done, first, ids);
      && Place(env, calls, i) < |rs|
      && rs[Place(env, calls, i)] ==
           Carrier(env.freshId(ids + Place(env, calls, i)), AnswerTo(env, calls, i, first))
  {
    var next := ids + Unknown(env, calls, |calls|);
    OutputOfCall(env, calls, i, done, first, next);
    SecondPart(Failures(env, calls, |calls|, ids), Outputs(env, Tasks(env, calls, |calls|), done, first, next),
               Known(env, calls, i));
  }

  lemma SecondPart<T>(a: seq<T>, b: seq<T>, j: nat)
    requires j < |b|
    ensures (a + b)[|a| + j] == b[j]
  {
  }

  /**
   Whatever the calls and whenever the turn is cancelled: the chain grows by results only, and the answer to each call
   it has come to is in its place, naming that call and holding, for a known tool, what its execution returned.
   */
  lemma BatchAnswers(env: Env, a: AgentState, calls: seq<ToolCall>, cut: nat) returns (rs: seq<Message>)
    requires CutAt(env, cut, a.asked.looks + 2 * |calls| + 1)
    ensures var (b, uses) := ExecTools(env, a, calls);
      && Gains(a, b, rs) && |rs| == Left(env, calls, a.asked.looks, cut)
      && uses == Worked(env, a.asked.executions, Done(env, calls, a.asked.looks, cut))
    ensures forall i :: 0 <= i < |calls| && Place(env, calls, i) < |rs| ==>
      rs[Place(env, calls, i)] == Carrier(env.freshId(a.asked.ids + Place(env, calls, i)),
                                          AnswerTo(env, calls, i, a.asked.executions))
  {
    var n, done := Reached(calls, a.asked.looks, cut), Done(env, calls, a.asked.looks, cut);
    BatchIs(env, a, calls, cut);
    rs := Batch(env, calls, n, done, a.asked.executions, a.asked.ids);
    forall i | 0 <= i < |calls| && Place(env, calls, i) < |rs|
      ensures rs[Place(env, calls, i)] == Carrier(env.freshId(a.asked.ids + Place(env, calls, i)),
                                                  AnswerTo(env, calls, i, a.asked.executions))
    {
      if env.knownTool(calls[i].name) {
        KnownGrows(env, calls, n, |calls|);
        OutputInPlace(env, calls, i, done, a.asked.executions, a.asked.ids);
      } else {
        FailureInPlace(env, calls, i, n, done, a.asked.executions, a.asked.ids);
      }
    }
  }

  /**
   A batch that is not cancelled answers every call: the j-th known one with what its execution, the j-th of the batch,
   returned, each unknown one with an error that names its tool. It counts the executions that did not fail.
   */
  lemma EveryCallIsAnswered(env: Env, a: AgentState, calls: seq<ToolCall>, i: nat)
    requires CutAt(env, a.asked.looks + 2 * |calls| + 1, a.asked.looks + 2 * |calls| + 1) && i < |calls|
    ensures var (b, uses) := ExecTools(env, a, calls);
      && |b.messages| == |a.messages| + |calls| && a.messages <= b.messages && Place(env, calls, i) < |calls|
      && b.messages[|a.messages| + Place(env, calls, i)].result == Some(AnswerTo(env, calls, i, a.asked.executions))
      && uses == Worked(env, a.asked.executions, Known(env, calls, |calls|))
  {
    var rs := BatchAnswers(env, a, calls, a.asked.looks + 2 * |calls| + 1);
    if env.knownTool(calls[i].name) {
      TaskAt(env, calls, i, |calls|);
    } else {
      FailureAt(env, calls, i, |calls|, 0, 0);
    }
  }
}
