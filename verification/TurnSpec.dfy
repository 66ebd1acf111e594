/**
 internal/core/agent_impl.go, ThinkAct: one pass of the inference-action loop as a function of the agent's
 state and of everything outside it, and the whole loop as the repetition of that pass.
 */
module TurnSpec {
  import opened Wrappers
  import opened Messages
  import opened ChainEvents

  datatype Config = Config(
    maxSteps: int,           // 0 or less: unlimited
    maxOutputRecovery: int,  // 0 or less: three
    maxTurnRetries: nat,
    canCompact: bool,
    inputLimit: int)

  /** A failed inference may carry any combination of these classifications. */
  datatype InferOutcome =
    | Answer(content: string, thinking: string, calls: seq<ToolCall>, hitTokenLimit: bool, promptTokens: nat)
    | Failure(tooLong: bool, canceled: bool, retryable: bool)

  datatype InboxItem =
    | Nothing
    | Closed                     // closed channel, or the stop signal
    | CompactNow(summary: string)
    | OtherSignal
    | Input(m: Message)

  datatype ToolOutput = ToolOutput(content: string, failed: bool)

  /** Everything the loop does not decide: the n-th answer each outside party gives when asked. */
  datatype Env = Env(
    infer: nat -> InferOutcome,
    inbox: nat -> InboxItem,
    summarize: nat -> Option<string>,
    canceled: nat -> bool,
    backoffCut: nat -> bool,
    execute: nat -> ToolOutput,
    freshId: nat -> string,
    knownTool: string -> bool,
    looksCut: string -> bool,
    estimate: seq<Message> -> nat)

  /** How often each outside party has been asked. */
  datatype Asked = Asked(infers: nat, polls: nat, summaries: nat, looks: nat, backoffs: nat, executions: nat, ids: nat)

  datatype AgentState = AgentState(
    messages: seq<Message>,
    lastTotalInputTokens: nat,
    events: seq<Event>,
    asked: Asked)

  datatype Turn = Turn(a: AgentState, steps: nat, retries: nat, recoveries: nat, toolUses: nat, lastContent: string)

  datatype Stop = Canceled | MaxSteps | Shutdown | Failed | EndTurn | RecoveryExhausted

  datatype Outcome = Continue(t: Turn) | Finished(t: Turn, stop: Stop)

  const TRUNCATED_RESUME :=
    "Your " + "response was truncated due to output token limits. Resume directly from where you left off. " +
    "Do not repeat any content."
  const TRUNCATED_TOOL_CALL_RESUME :=
    "Your " +
    "previous tool call arguments were truncated due to output token limits. Reissue any incomplete tool calls " +
    "with complete, valid JSON arguments. Do not repeat successful tool results."
  const SUMMARY_PREFIX := "Previous context:\n"

  function UserText(content: string): Message {
    Message("", User, content, "", [], None)
  }

  function ResultMessage(c: ToolCall, content: string, isError: bool): Message {
    Message("", User, "", "", [], Some(ToolResult(c.id, c.name, content, isError)))
  }

  function Stamped(env: Env, a: AgentState, m: Message): Message {
    if m.id == "" then m.(id := env.freshId(a.asked.ids)) else m
  }

  function Append(env: Env, a: AgentState, m: Message): AgentState {
    var stamped := Stamped(env, a, m);
    a.(messages := a.messages + [stamped],
       events := a.events + [Appended(stamped)],
       asked := if m.id == "" then a.asked.(ids := a.asked.ids + 1) else a.asked)
  }

  function ApplyCompaction(env: Env, a: AgentState, summary: string): AgentState {
    var m := UserText(SUMMARY_PREFIX + summary).(id := env.freshId(a.asked.ids));
    a.(messages := [m],
       lastTotalInputTokens := 0,
       events := a.events + [Appended(m), Compacted(m.id)],
       asked := a.asked.(ids := a.asked.ids + 1))
  }

  /** Compaction refuses a chain of fewer than three messages and needs a non-empty summary. */
  function Compact(env: Env, a: AgentState): (r: (bool, AgentState)) {
    if |a.messages| < 3 then (false, a)
    else
      var asked := a.(asked := a.asked.(summaries := a.asked.summaries + 1));
      match env.summarize(a.asked.summaries)
      case None => (false, asked)
      case Some(summary) => if summary == "" then (false, asked) else (true, ApplyCompaction(env, asked, summary))
  }

  /** One inbox item; the flag says whether the agent must shut down. */
  function Drain(env: Env, a: AgentState): (bool, AgentState) {
    var polled := a.(asked := a.asked.(polls := a.asked.polls + 1));
    match env.inbox(a.asked.polls)
    case Nothing => (false, polled)
    case Closed => (true, polled)
    case CompactNow(summary) => (false, ApplyCompaction(env, polled, summary))
    case OtherSignal => (false, polled)
    case Input(m) => (false, Append(env, polled, m))
  }

  function Looked(a: AgentState): AgentState {
    a.(asked := a.asked.(looks := a.asked.looks + 1))
  }

  /** Phase one of a tool batch: unknown tools fail at once, known ones become tasks, in call order. */
  function Resolve(env: Env, a: AgentState, calls: seq<ToolCall>, tasks: seq<ToolCall>): (AgentState, seq<ToolCall>)
    decreases |calls|
  {
    if calls == [] then (a, tasks)
    else if env.canceled(a.asked.looks) then (Looked(a), tasks)
    else if env.knownTool(calls[0].name) then Resolve(env, Looked(a), calls[1..], tasks + [calls[0]])
    else Resolve(env, Append(env, Looked(a), ResultMessage(calls[0], "unknown tool: " + calls[0].name, true)),
      calls[1..], tasks)
  }

  /** Phase three: results in task order, until a cancellation is seen. The count is of the tools that succeeded. */
  function Record(env: Env, a: AgentState, tasks: seq<ToolCall>, first: nat, uses: nat): (AgentState, nat)
    decreases |tasks|
  {
    if tasks == [] then (a, uses)
    else if env.canceled(a.asked.looks) then (Looked(a), uses)
    else
      var out := env.execute(first);
      Record(env, Append(env, Looked(a), ResultMessage(tasks[0], out.content, out.failed)), tasks[1..], first + 1,
             if out.failed then uses else uses + 1)
  }

  function ExecTools(env: Env, a: AgentState, calls: seq<ToolCall>): (AgentState, nat) {
    var (resolved, tasks) := Resolve(env, a, calls, []);
    var first := resolved.asked.executions;
    Record(env, resolved.(asked := resolved.asked.(executions := first + |tasks|)), tasks, first, 0)
  }

  predicate NeedsCompaction(promptTokens: nat, inputLimit: int) {
    inputLimit != 0 && promptTokens != 0 && 100 * promptTokens >= 95 * inputLimit
  }

  function PromptTokensOrEstimate(env: Env, a: AgentState): nat {
    if a.lastTotalInputTokens > 0 then a.lastTotalInputTokens else env.estimate(a.messages)
  }

  function MaxRecovery(cfg: Config): nat {
    if cfg.maxOutputRecovery <= 0 then 3 else cfg.maxOutputRecovery
  }

  /** Ask the model to resume, unless the recovery budget is spent. */
  function Recover(env: Env, cfg: Config, t: Turn, prompt: string): Outcome {
    if t.recoveries >= MaxRecovery(cfg) then Finished(t, RecoveryExhausted)
    else Continue(t.(a := Append(env, t.a, UserText(prompt)), recoveries := t.recoveries + 1))
  }

  predicate AnyCut(env: Env, calls: seq<ToolCall>) {
    exists i :: 0 <= i < |calls| && env.looksCut(calls[i].input)
  }

  /** A completed inference step. */
  function OnAnswer(env: Env, cfg: Config, t: Turn, r: InferOutcome): Outcome
    requires r.Answer?
  {
    var reply := Message("", Assistant, r.content, r.thinking, r.calls, None);
    var a := Append(env, t.a.(lastTotalInputTokens := r.promptTokens), reply);
    var t1 := t.(a := a, steps := t.steps + 1, retries := 0, lastContent := r.content);
    if r.calls == [] then
      if r.hitTokenLimit then Recover(env, cfg, t1, TRUNCATED_RESUME) else Finished(t1, EndTurn)
    else
      var (a2, uses) := ExecTools(env, a, r.calls);
      var t2 := t1.(a := a2, toolUses := t1.toolUses + uses);
      if r.hitTokenLimit && AnyCut(env, r.calls) then Recover(env, cfg, t2, TRUNCATED_TOOL_CALL_RESUME)
      else Continue(t2)
  }

  /** A failed inference: compact and retry, retry after a backoff, or end the turn. */
  function OnFailure(env: Env, cfg: Config, t: Turn, r: InferOutcome): Outcome
    requires r.Failure?
  {
    var (compacted, a) := if cfg.canCompact && r.tooLong then Compact(env, t.a) else (false, t.a);
    var t1 := t.(a := a);
    if compacted then Continue(t1)
    else if r.canceled then Finished(t1, Canceled)
    else if r.retryable && t.retries < cfg.maxTurnRetries then
      var t2 := t1.(retries := t.retries + 1, a := a.(asked := a.asked.(backoffs := a.asked.backoffs + 1)));
      if env.backoffCut(a.asked.backoffs) then Finished(t2, Canceled) else Continue(t2)
    else Finished(t1, Failed)
  }

  function Infer(env: Env, cfg: Config, t: Turn): Outcome {
    var asked := t.(a := t.a.(events := t.a.events + [Requested(t.a.messages)],
                              asked := t.a.asked.(infers := t.a.asked.infers + 1)));
    var r := env.infer(t.a.asked.infers);
    if r.Answer? then OnAnswer(env, cfg, asked, r) else OnFailure(env, cfg, asked, r)
  }

  function CompactThenInfer(env: Env, cfg: Config, t: Turn): Outcome {
    var full := cfg.canCompact && cfg.inputLimit > 0 &&
      NeedsCompaction(PromptTokensOrEstimate(env, t.a), cfg.inputLimit);
    var (compacted, a) := if full then Compact(env, t.a) else (false, t.a);
    if compacted then Continue(t.(a := a)) else Infer(env, cfg, t.(a := a))
  }

  /** One pass of the loop. */
  function Pass(env: Env, cfg: Config, t: Turn): Outcome {
    var seen := t.(a := Looked(t.a));
    if env.canceled(t.a.asked.looks) then Finished(seen, Canceled)
    else if cfg.maxSteps > 0 && t.steps >= cfg.maxSteps then Finished(seen, MaxSteps)
    else
      var (stopped, a) := if t.steps > 0 then Drain(env, seen.a) else (false, seen.a);
      if stopped then Finished(seen.(a := a), Shutdown) else CompactThenInfer(env, cfg, seen.(a := a))
  }

  // ---------------------------------------------------------------------------
  // The loop, under any step cap or none: where it stands after a number of passes.

  /** After `n` passes the loop is still going on, or it has finished in one of them. */
  ghost function Passes(env: Env, cfg: Config, t: Turn, n: nat): Outcome {
    if n == 0 then Continue(t)
    else
      var o := Passes(env, cfg, t, n - 1);
      if o.Continue? then Pass(env, cfg, o.t) else o
  }

  /** Counting passes from the first one on. */
  lemma {:induction false} PassesFromFirst(env: Env, cfg: Config, t: Turn, n: nat)
    ensures var o := Pass(env, cfg, t);
      Passes(env, cfg, t, n + 1) == if o.Continue? then Passes(env, cfg, o.t, n) else o
  {
    if n == 0 {
      assert Passes(env, cfg, t, 0) == Continue(t);
    } else {
      PassesFromFirst(env, cfg, t, n - 1);
    }
  }

  // ---------------------------------------------------------------------------
  // With a positive step cap the loop ends, whatever the outside parties do.

  /** A chain of fewer than two messages cannot reach the three a compaction needs in one pass. */
  function MayCompact(t: Turn): nat {
    if |t.a.messages| >= 2 then 1 else 0
  }

  lemma {:induction false} ResolveAsksNoInference(env: Env, a: AgentState, calls: seq<ToolCall>, tasks: seq<ToolCall>)
    ensures Resolve(env, a, calls, tasks).0.asked.infers == a.asked.infers
    decreases |calls|
  {
    if calls != [] && !env.canceled(a.asked.looks) {
      ResolveAsksNoInference(env, Looked(a), calls[1..], tasks + [calls[0]]);
      ResolveAsksNoInference(env, Append(env, Looked(a),
        ResultMessage(calls[0], "unknown tool: " + calls[0].name, true)), calls[1..], tasks);
    }
  }

  lemma {:induction false} RecordAsksNoInference(env: Env, a: AgentState, tasks: seq<ToolCall>, first: nat, uses: nat)
    ensures Record(env, a, tasks, first, uses).0.asked.infers == a.asked.infers
    decreases |tasks|
  {
    if tasks != [] && !env.canceled(a.asked.looks) {
      var out := env.execute(first);
      RecordAsksNoInference(env, Append(env, Looked(a), ResultMessage(tasks[0], out.content, out.failed)), tasks[1..],
                           first + 1, if out.failed then uses else uses + 1);
    }
  }

  lemma ExecAsksNoInference(env: Env, a: AgentState, calls: seq<ToolCall>)
    ensures ExecTools(env, a, calls).0.asked.infers == a.asked.infers
  {
    ResolveAsksNoInference(env, a, calls, []);
    var (resolved, tasks) := Resolve(env, a, calls, []);
    var first := resolved.asked.executions;
    RecordAsksNoInference(env, resolved.(asked := resolved.asked.(executions := first + |tasks|)), tasks, first, 0);
  }

  lemma AnswerSpends(env: Env, cfg: Config, t: Turn, r: InferOutcome)
    requires r.Answer?
    ensures var o := OnAnswer(env, cfg, t, r);
      o.t.a.asked.infers == t.a.asked.infers && o.t.steps == t.steps + 1 && o.t.retries == 0
  {
    var reply := Message("", Assistant, r.content, r.thinking, r.calls, None);
    ExecAsksNoInference(env, Append(env, t.a.(lastTotalInputTokens := r.promptTokens), reply), r.calls);
  }

  lemma FailureSpends(env: Env, cfg: Config, t: Turn, r: InferOutcome)
    requires r.Failure?
    ensures var o := OnFailure(env, cfg, t, r);
      && o.t.a.asked.infers == t.a.asked.infers && o.t.steps == t.steps
      && (o.Continue? ==>
           || (o.t.retries == t.retries + 1 <= cfg.maxTurnRetries)
           || (o.t.retries == t.retries && |t.a.messages| >= 3 && |o.t.a.messages| == 1))
  {
  }

  /** The three ways a pass can go on: a step done, a retry spent, or the chain compacted. */
  ghost predicate Spent(cfg: Config, t: Turn, u: Turn, used: int) {
    || (used == 1 && u.steps == t.steps + 1 && u.retries == 0)
    || (used == 1 && u.steps == t.steps && u.retries == t.retries + 1 <= cfg.maxTurnRetries)
    || (u.steps == t.steps && u.retries == t.retries && MayCompact(u) < MayCompact(t))
  }

  /** What one pass does to the four budgets. It asks for at most one inference, and only below the step cap. */
  lemma PassSpends(env: Env, cfg: Config, t: Turn)
    ensures var o := Pass(env, cfg, t); var used := o.t.a.asked.infers - t.a.asked.infers;
      && 0 <= used <= 1
      && (used == 1 || o.Continue? ==> cfg.maxSteps <= 0 || t.steps < cfg.maxSteps)
      && (o.Continue? ==> Spent(cfg, t, o.t, used))
  {
    var looked := t.(a := Looked(t.a));
    if !env.canceled(t.a.asked.looks) && !(cfg.maxSteps > 0 && t.steps >= cfg.maxSteps) {
      var (stopped, a) := if t.steps > 0 then Drain(env, looked.a) else (false, looked.a);
      assert |a.messages| <= |t.a.messages| + 1 || |a.messages| == 1;
      if !stopped {
        CompactThenInferSpends(env, cfg, looked.(a := a));
      }
    }
  }

  /** What an outcome may have spent, given that it asked for at most one inference. */
  ghost predicate Spends(cfg: Config, t: Turn, o: Outcome) {
    var used := o.t.a.asked.infers - t.a.asked.infers;
    && 0 <= used <= 1
    && (o.Continue? ==>
         || (used == 1 && o.t.steps == t.steps + 1 && o.t.retries == 0)
         || (used == 1 && o.t.steps == t.steps && o.t.retries == t.retries + 1 <= cfg.maxTurnRetries)
         || (o.t.steps == t.steps && o.t.retries == t.retries && |t.a.messages| >= 3 && |o.t.a.messages| == 1))
  }

  lemma InferSpends(env: Env, cfg: Config, t: Turn, a: AgentState)
    requires a.messages == t.a.messages && a.asked.infers == t.a.asked.infers
    ensures Spends(cfg, t, Infer(env, cfg, t.(a := a)))
  {
    var asked := t.(a := a.(events := a.events + [Requested(a.messages)],
                            asked := a.asked.(infers := a.asked.infers + 1)));
    var r := env.infer(a.asked.infers);
    if r.Answer? {
      AnswerSpends(env, cfg, asked, r);
    } else {
      FailureSpends(env, cfg, asked, r);
    }
  }

  lemma CompactThenInferSpends(env: Env, cfg: Config, t: Turn)
    ensures Spends(cfg, t, CompactThenInfer(env, cfg, t))
  {
    var full := cfg.canCompact && cfg.inputLimit > 0 &&
      NeedsCompaction(PromptTokensOrEstimate(env, t.a), cfg.inputLimit);
    var (compacted, a) := if full then Compact(env, t.a) else (false, t.a);
    if !compacted {
      InferSpends(env, cfg, t, a);
    }
  }

  /** The end of a capped loop. */
  ghost function Run(env: Env, cfg: Config, t: Turn): (Turn, Stop)
    requires cfg.maxSteps > 0 && t.retries <= cfg.maxTurnRetries
    decreases cfg.maxSteps - t.steps, cfg.maxTurnRetries - t.retries, MayCompact(t)
  {
    match Pass(env, cfg, t)
    case Finished(u, stop) => (u, stop)
    case Continue(u) => PassSpends(env, cfg, t); Run(env, cfg, u)
  }

  /** Some number of passes is the whole of a capped run. */
  lemma {:induction false} RunIsPasses(env: Env, cfg: Config, t: Turn) returns (n: nat)
    requires cfg.maxSteps > 0 && t.retries <= cfg.maxTurnRetries
    ensures Passes(env, cfg, t, n) == Finished(Run(env, cfg, t).0, Run(env, cfg, t).1)
    decreases cfg.maxSteps - t.steps, cfg.maxTurnRetries - t.retries, MayCompact(t)
  {
    var o := Pass(env, cfg, t);
    if o.Finished? {
      PassesFromFirst(env, cfg, t, 0);
      n := 1;
    } else {
      PassSpends(env, cfg, t);
      var m := RunIsPasses(env, cfg, o.t);
      PassesFromFirst(env, cfg, t, m);
      n := m + 1;
    }
  }
}
