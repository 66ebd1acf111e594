/** internal/core/agent_impl.go, ThinkAct: why a turn ends, retries or compacts, told from what the parties answer. */
module TurnStops {
  import opened Wrappers
  import opened Messages
  import opened ChainEvents
  import opened TurnSpec

  /** A compaction takes place: there are three messages to compact, and the next summary is some text. */
  predicate Compacts(env: Env, a: AgentState) {
    |a.messages| >= 3 && env.summarize(a.asked.summaries).Some? && env.summarize(a.asked.summaries).value != ""
  }

  /** The prompt fills 95 percent of the model's input, measured by the last answer or, before one, estimated. */
  predicate Full(env: Env, cfg: Config, a: AgentState) {
    var tokens := if a.lastTotalInputTokens > 0 then a.lastTotalInputTokens else env.estimate(a.messages);
    cfg.inputLimit > 0 && 0 < tokens && 19 * cfg.inputLimit <= 20 * tokens
  }

  lemma FullIs(env: Env, cfg: Config, a: AgentState)
    ensures Full(env, cfg, a) <==>
      cfg.inputLimit > 0 && NeedsCompaction(PromptTokensOrEstimate(env, a), cfg.inputLimit)
  {
  }

  lemma CompactIff(env: Env, a: AgentState)
    ensures Compact(env, a).0 <==> Compacts(env, a)
    ensures Compacts(env, a) ==>
      var text := SUMMARY_PREFIX + env.summarize(a.asked.summaries).value;
      Compact(env, a).1.messages == [Message(env.freshId(a.asked.ids), User, text, "", [], None)]
    ensures !Compacts(env, a) ==> Compact(env, a).1.messages == a.messages && Compact(env, a).1.events == a.events
    ensures Compact(env, a).1.lastTotalInputTokens == if Compacts(env, a) then 0 else a.lastTotalInputTokens
  {
  }

  /** A model is asked exactly when the prompt is not full, or cannot be compacted. */
  lemma AskedIff(env: Env, cfg: Config, t: Turn)
    ensures var o := CompactThenInfer(env, cfg, t);
      o.t.a.asked.infers ==
        t.a.asked.infers + if cfg.canCompact && Full(env, cfg, t.a) && Compacts(env, t.a) then 0 else 1
  {
    FullIs(env, cfg, t.a);
    CompactIff(env, t.a);
    var a := if cfg.canCompact && Full(env, cfg, t.a) then Compact(env, t.a).1 else t.a;
    if !(cfg.canCompact && Full(env, cfg, t.a) && Compacts(env, t.a)) {
      InferAsksOnce(env, cfg, t.(a := a));
    }
  }

  lemma InferAsksOnce(env: Env, cfg: Config, t: Turn)
    ensures Infer(env, cfg, t).t.a.asked.infers == t.a.asked.infers + 1
  {
    var asked := t.(a := t.a.(events := t.a.events + [Requested(t.a.messages)],
                              asked := t.a.asked.(infers := t.a.asked.infers + 1)));
    var r := env.infer(t.a.asked.infers);
    if r.Answer? {
      AnswerSpends(env, cfg, asked, r);
    } else {
      FailureSpends(env, cfg, asked, r);
    }
  }

  /** The output was cut at the model's limit and must be resumed: there are no calls, or some call is cut. */
  predicate CutShort(env: Env, r: InferOutcome)
    requires r.Answer?
  {
    r.hitTokenLimit && (r.calls == [] || exists i :: 0 <= i < |r.calls| && env.looksCut(r.calls[i].input))
  }

  predicate Retries(cfg: Config, t: Turn, r: InferOutcome)
    requires r.Failure?
  {
    r.retryable && t.retries < cfg.maxTurnRetries
  }

  /** Why a turn ends with the answer to a request, or goes on. */
  lemma AnswerEnds(env: Env, cfg: Config, t: Turn, r: InferOutcome)
    requires r.Answer?
    ensures var o := OnAnswer(env, cfg, t, r);
      var budget := if cfg.maxOutputRecovery <= 0 then 3 else cfg.maxOutputRecovery;
      && (o == Finished(o.t, EndTurn) <==> r.calls == [] && !r.hitTokenLimit)
      && (o == Finished(o.t, RecoveryExhausted) <==> CutShort(env, r) && t.recoveries >= budget)
      && (o.Continue? <==> (CutShort(env, r) && t.recoveries < budget) || (r.calls != [] && !CutShort(env, r)))
      && o.t.recoveries == t.recoveries + (if CutShort(env, r) && t.recoveries < budget then 1 else 0)
      && o.t.retries == 0
  {
  }

  /** Why a turn ends with a failed request, or is tried again. */
  lemma FailureEnds(env: Env, cfg: Config, t: Turn, r: InferOutcome)
    requires r.Failure?
    ensures var o := OnFailure(env, cfg, t, r);
      var compacts := cfg.canCompact && r.tooLong && Compacts(env, t.a);
      var retries := !compacts && !r.canceled && Retries(cfg, t, r);
      var cut := env.backoffCut(t.a.asked.backoffs);
      && (o == Finished(o.t, Canceled) <==> (!compacts && r.canceled) || (retries && cut))
      && (o == Finished(o.t, Failed) <==> !compacts && !r.canceled && !retries)
      && (o.Continue? <==> compacts || (retries && !cut))
      && o.t.retries == t.retries + (if retries then 1 else 0)
  {
    CompactIff(env, t.a);
  }

  /** A pass that is cancelled, capped or shut down ends there; any other drains the inbox and asks the model. */
  lemma PassEnds(env: Env, cfg: Config, t: Turn)
    ensures var o := Pass(env, cfg, t);
      var canceled := env.canceled(t.a.asked.looks);
      var capped := !canceled && 0 < cfg.maxSteps <= t.steps;
      var closed := !canceled && !capped && t.steps > 0 && env.inbox(t.a.asked.polls).Closed?;
      && (canceled ==> o == Finished(o.t, Canceled))
      && (capped ==> o == Finished(o.t, MaxSteps))
      && (closed ==> o == Finished(o.t, Shutdown))
      && (canceled || capped || closed ==> o.t.a.asked.infers == t.a.asked.infers && o.t.a.messages == t.a.messages)
      && (!canceled && !capped && !closed ==> o == CompactThenInfer(env, cfg, t.(a := Drained(env, t))))
  {
  }

  /** What the engine has before it asks: from the second step on, one more item of the inbox. */
  function Drained(env: Env, t: Turn): AgentState {
    if t.steps > 0 then Drain(env, Looked(t.a)).1 else Looked(t.a)
  }

  /** The item that is drained is in the chain that is sent next, last, as it was delivered; a summary replaces all. */
  lemma DrainedIsLast(env: Env, t: Turn)
    requires t.steps > 0
    ensures var messages := Drained(env, t).messages;
      match env.inbox(t.a.asked.polls)
      case Input(m) =>
        && |messages| == |t.a.messages| + 1 && t.a.messages <= messages
        && messages[|t.a.messages|] == if m.id == "" then m.(id := env.freshId(t.a.asked.ids)) else m
      case CompactNow(summary) =>
        messages == [Message(env.freshId(t.a.asked.ids), User, SUMMARY_PREFIX + summary, "", [], None)]
      case _ => messages == t.a.messages
  {
  }

  /** The prompt is measured by each answer, until a compaction starts over; nothing else touches the measure. */
  lemma AnswerMeasures(env: Env, cfg: Config, t: Turn, r: InferOutcome)
    requires r.Answer?
    ensures OnAnswer(env, cfg, t, r).t.a.lastTotalInputTokens == r.promptTokens
  {
    var measured := t.a.(lastTotalInputTokens := r.promptTokens);
    var a := Append(env, measured, Message("", Assistant, r.content, r.thinking, r.calls, None));
    if r.calls != [] {
      BatchKeepsMeasure(env, a, r.calls);
    }
  }

  lemma BatchKeepsMeasure(env: Env, a: AgentState, calls: seq<ToolCall>)
    ensures ExecTools(env, a, calls).0.lastTotalInputTokens == a.lastTotalInputTokens
  {
    ResolveKeepsMeasure(env, a, calls, []);
    var (resolved, tasks) := Resolve(env, a, calls, []);
    var first := resolved.asked.executions;
    RecordKeepsMeasure(env, resolved.(asked := resolved.asked.(executions := first + |tasks|)), tasks, first, 0);
  }

  lemma {:induction false} ResolveKeepsMeasure(env: Env, a: AgentState, calls: seq<ToolCall>, tasks: seq<ToolCall>)
    ensures Resolve(env, a, calls, tasks).0.lastTotalInputTokens == a.lastTotalInputTokens
    decreases |calls|
  {
    if calls != [] && !env.canceled(a.asked.looks) {
      ResolveKeepsMeasure(env, Looked(a), calls[1..], tasks + [calls[0]]);
      ResolveKeepsMeasure(env, Append(env, Looked(a),
        ResultMessage(calls[0], "unknown tool: " + calls[0].name, true)), calls[1..], tasks);
    }
  }

  lemma {:induction false} RecordKeepsMeasure(env: Env, a: AgentState, tasks: seq<ToolCall>, first: nat, uses: nat)
    ensures Record(env, a, tasks, first, uses).0.lastTotalInputTokens == a.lastTotalInputTokens
    decreases |tasks|
  {
    if tasks != [] && !env.canceled(a.asked.looks) {
      var out := env.execute(first);
      RecordKeepsMeasure(env, Append(env, Looked(a), ResultMessage(tasks[0], out.content, out.failed)), tasks[1..],
                         first + 1, if out.failed then uses else uses + 1);
    }
  }
}
