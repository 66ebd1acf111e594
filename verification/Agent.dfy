/** internal/core/agent_impl.go: the agent whose methods update its chain in place, and its ThinkAct loop. */
module Agents {
  import opened Wrappers
  import opened Messages
  import opened ChainEvents
  import opened TurnSpec

  datatype Gate = Ready | Again | Leave(stop: Stop)

  class Agent {
    const cfg: Config
    const env: Env
    var messages: seq<Message>
    var lastTotalInputTokens: nat
    var events: seq<Event>
    var asked: Asked

    constructor (cfg: Config, env: Env, history: seq<Message>)
      ensures this.cfg == cfg && this.env == env
      ensures State() == AgentState(history, 0, [], Asked(0, 0, 0, 0, 0, 0, 0))
    {
      this.cfg, this.env := cfg, env;
      messages, lastTotalInputTokens, events := history, 0, [];
      asked := Asked(0, 0, 0, 0, 0, 0, 0);
    }

    ghost function State(): AgentState
      reads this
    {
      AgentState(messages, lastTotalInputTokens, events, asked)
    }

    method Append(m: Message)
      modifies this
      ensures State() == TurnSpec.Append(env, old(State()), m)
    {
      var stamped := m;
      if m.id == "" {
        stamped := m.(id := env.freshId(asked.ids));
        asked := asked.(ids := asked.ids + 1);
      }
      messages := messages + [stamped];
      events := events + [Appended(stamped)];
    }

    method ApplyCompaction(summary: string)
      modifies this
      ensures State() == TurnSpec.ApplyCompaction(env, old(State()), summary)
    {
      var summaryMsg := UserText(SUMMARY_PREFIX + summary).(id := env.freshId(asked.ids));
      asked := asked.(ids := asked.ids + 1);
      messages := [summaryMsg];
      lastTotalInputTokens := 0;
      events := events + [Appended(summaryMsg)];
      events := events + [Compacted(summaryMsg.id)];
    }

    method Compact() returns (ok: bool)
      modifies this
      ensures (ok, State()) == TurnSpec.Compact(env, old(State()))
    {
      if |messages| < 3 {
        return false;
      }
      var summary := env.summarize(asked.summaries);
      asked := asked.(summaries := asked.summaries + 1);
      if summary.None? || summary.value == "" {
        return false;
      }
      ApplyCompaction(summary.value);
      return true;
    }

    /** Reads at most one pending inbox item; tells whether it was a deliberate shutdown. */
    method DrainInbox() returns (stopped: bool)
      modifies this
      ensures (stopped, State()) == TurnSpec.Drain(env, old(State()))
    {
      var item := env.inbox(asked.polls);
      asked := asked.(polls := asked.polls + 1);
      match item
      case Nothing => return false;
      case Closed => return true;
      case CompactNow(summary) => ApplyCompaction(summary); return false;
      case OtherSignal => return false;
      case Input(m) => Append(m); return false;
    }

    /** ctx.Err() != nil. */
    method SeesCancellation() returns (yes: bool)
      modifies this
      ensures yes == env.canceled(old(asked.looks)) && State() == Looked(old(State()))
    {
      yes := env.canceled(asked.looks);
      asked := asked.(looks := asked.looks + 1);
    }

    method ExecTools(calls: seq<ToolCall>) returns (toolUses: nat)
      modifies this
      ensures (State(), toolUses) == TurnSpec.ExecTools(env, old(State()), calls)
    {
      var tasks := ResolveTools(calls);
      var first := asked.executions;
      asked := asked.(executions := first + |tasks|);
      toolUses := RecordResults(tasks, first);
    }

    method ResolveTools(calls: seq<ToolCall>) returns (tasks: seq<ToolCall>)
      modifies this
      ensures (State(), tasks) == Resolve(env, old(State()), calls, [])
    {
      tasks := [];
      ghost var goal := Resolve(env, State(), calls, []);
      assert calls[0..] == calls;
      for i := 0 to |calls|
        invariant goal == Resolve(env, State(), calls[i..], tasks)
      {
        var tc := calls[i];
        assert calls[i..][0] == tc && calls[i..][1..] == calls[i + 1..];
        var cut := SeesCancellation();
        if cut {
          return;
        }
        if !env.knownTool(tc.name) {
          Append(ResultMessage(tc, "unknown tool: " + tc.name, true));
        } else {
          tasks := tasks + [tc];
        }
      }
    }

    method RecordResults(tasks: seq<ToolCall>, first: nat) returns (toolUses: nat)
      modifies this
      ensures (State(), toolUses) == Record(env, old(State()), tasks, first, 0)
    {
      toolUses := 0;
      ghost var goal := Record(env, State(), tasks, first, 0);
      assert tasks[0..] == tasks;
      for i := 0 to |tasks|
        invariant goal == Record(env, State(), tasks[i..], first + i, toolUses)
      {
        assert tasks[i..][0] == tasks[i] && tasks[i..][1..] == tasks[i + 1..];
        var cut := SeesCancellation();
        if cut {
          return;
        }
        var r := env.execute(first + i);
        Append(ResultMessage(tasks[i], r.content, r.failed));
        if !r.failed {
          toolUses := toolUses + 1;
        }
      }
    }

    /** Records what is about to be sent and asks the model. */
    method StreamInfer() returns (r: InferOutcome)
      modifies this
      ensures r == env.infer(old(asked.infers))
      ensures State() == old(State()).(events := old(events) + [Requested(old(messages))],
                                       asked := old(asked).(infers := old(asked.infers) + 1))
    {
      events := events + [Requested(messages)];
      r := env.infer(asked.infers);
      asked := asked.(infers := asked.infers + 1);
    }

    /** The guards between two steps: cancellation, the step cap, the inbox, and proactive compaction. */
    method BeforeInference(steps: nat, ghost t: Turn) returns (gate: Gate)
      requires t.a == State() && t.steps == steps
      modifies this
      ensures Pass(env, cfg, t) ==
        var u := t.(a := State());
        match gate
        case Ready => Infer(env, cfg, u)
        case Again => Continue(u)
        case Leave(stop) => Finished(u, stop)
    {
      var cut := SeesCancellation();
      if cut {
        return Leave(Canceled);
      }
      if cfg.maxSteps > 0 && steps >= cfg.maxSteps {
        return Leave(MaxSteps);
      }
      if steps > 0 {
        var stopped := DrainInbox();
        if stopped {
          return Leave(Shutdown);
        }
      }
      if cfg.canCompact && cfg.inputLimit > 0 {
        var promptTokens := if lastTotalInputTokens > 0 then lastTotalInputTokens else env.estimate(messages);
        if NeedsCompaction(promptTokens, cfg.inputLimit) {
          var compacted := Compact();
          if compacted {
            return Again;
          }
        }
      }
      return Ready;
    }

    /** One full inference-action cycle: every exit of the loop is the end of the specified run. */
    method ThinkAct() returns (stop: Stop, steps: nat, toolUses: nat, lastContent: string)
      requires cfg.maxSteps > 0
      modifies this
      ensures var end := Run(env, cfg, Turn(old(State()), 0, 0, 0, 0, ""));
        && end.1 == stop && end.0.a == State()
        && end.0.steps == steps && end.0.toolUses == toolUses && end.0.lastContent == lastContent
    {
      steps, toolUses, lastContent := 0, 0, "";
      var turnRetries: nat, maxOutputRecoveryCount: nat := 0, 0;
      ghost var goal := Run(env, cfg, Turn(State(), 0, 0, 0, 0, ""));
      while true
        invariant turnRetries <= cfg.maxTurnRetries
        invariant goal == Run(env, cfg,
          Turn(State(), steps, turnRetries, maxOutputRecoveryCount, toolUses, lastContent))
        decreases cfg.maxSteps - steps, cfg.maxTurnRetries - turnRetries, if |messages| >= 2 then 1 else 0
      {
        ghost var t := Turn(State(), steps, turnRetries, maxOutputRecoveryCount, toolUses, lastContent);
        PassSpends(env, cfg, t);
        var goOn, why;
        goOn, why, steps, turnRetries, maxOutputRecoveryCount, toolUses, lastContent :=
          OnePass(steps, turnRetries, maxOutputRecoveryCount, toolUses, lastContent);
        if !goOn {
          return why, steps, toolUses, lastContent;
        }
      }
    }

    /** The same loop under any step cap or none, as far as its first `limit` passes: an uncapped one may not end. */
    method ThinkActFor(limit: nat) returns (goOn: bool, stop: Stop, steps: nat, toolUses: nat, lastContent: string)
      modifies this
      ensures var o := Passes(env, cfg, Turn(old(State()), 0, 0, 0, 0, ""), limit);
        && (goOn <==> o.Continue?) && (o.Finished? ==> o.stop == stop)
        && o.t.a == State() && o.t.steps == steps && o.t.toolUses == toolUses && o.t.lastContent == lastContent
    {
      goOn, stop, steps, toolUses, lastContent := true, EndTurn, 0, 0, "";
      var turnRetries: nat, maxOutputRecoveryCount: nat := 0, 0;
      ghost var start := Turn(State(), 0, 0, 0, 0, "");
      for i := 0 to limit
        invariant var t := Turn(State(), steps, turnRetries, maxOutputRecoveryCount, toolUses, lastContent);
          Passes(env, cfg, start, i) == if goOn then Continue(t) else Finished(t, stop)
      {
        if goOn {
          goOn, stop, steps, turnRetries, maxOutputRecoveryCount, toolUses, lastContent :=
            OnePass(steps, turnRetries, maxOutputRecoveryCount, toolUses, lastContent);
        }
      }
    }

    /** The body of the loop. */
    method OnePass(steps0: nat, retries0: nat, recovered: nat, uses0: nat, last: string)
      returns (goOn: bool, why: Stop, steps: nat, turnRetries: nat, recoveries: nat, toolUses: nat, lastContent: string)
      modifies this
      ensures Pass(env, cfg, Turn(old(State()), steps0, retries0, recovered, uses0, last)) ==
        var u := Turn(State(), steps, turnRetries, recoveries, toolUses, lastContent);
        if goOn then Continue(u) else Finished(u, why)
    {
      ghost var t := Turn(State(), steps0, retries0, recovered, uses0, last);
      steps, turnRetries, recoveries, toolUses, lastContent := steps0, retries0, recovered, uses0, last;
      var gate := BeforeInference(steps, t);
      if gate.Leave? {
        return false, gate.stop, steps, turnRetries, recoveries, toolUses, lastContent;
      }
      if gate.Again? {
        return true, EndTurn, steps, turnRetries, recoveries, toolUses, lastContent;
      }
      goOn, why, steps, turnRetries, recoveries, toolUses, lastContent :=
        InferAndAct(steps, turnRetries, recoveries, toolUses, lastContent);
    }

    /** The inference of a pass and everything that follows from its outcome. */
    method InferAndAct(steps0: nat, retries0: nat, recovered: nat, uses0: nat, last: string)
      returns (goOn: bool, why: Stop, steps: nat, turnRetries: nat, recoveries: nat, toolUses: nat, lastContent: string)
      modifies this
      ensures Infer(env, cfg, Turn(old(State()), steps0, retries0, recovered, uses0, last)) ==
        var u := Turn(State(), steps, turnRetries, recoveries, toolUses, lastContent);
        if goOn then Continue(u) else Finished(u, why)
    {
      steps, turnRetries, recoveries, toolUses, lastContent := steps0, retries0, recovered, uses0, last;
      var resp := StreamInfer();
      ghost var asking := Turn(State(), steps0, retries0, recovered, uses0, last);
      if resp.Failure? {
        goOn, why, turnRetries := RetryOrGiveUp(resp, turnRetries, asking);
        return;
      }
      turnRetries := 0;
      steps := steps + 1;
      lastContent := resp.content;
      var uses;
      goOn, why, recoveries, uses := Act(resp, recoveries, asking);
      toolUses := toolUses + uses;
    }

    /** After a failed inference: compact, back off and retry, or end the turn. */
    method RetryOrGiveUp(resp: InferOutcome, retries: nat, ghost t: Turn)
      returns (goOn: bool, why: Stop, turnRetries: nat)
      requires resp.Failure? && t.a == State() && t.retries == retries
      modifies this
      ensures OnFailure(env, cfg, t, resp) ==
        var u := t.(a := State(), retries := turnRetries); if goOn then Continue(u) else Finished(u, why)
    {
      turnRetries := retries;
      if cfg.canCompact && resp.tooLong {
        var compacted := Compact();
        if compacted {
          return true, Failed, retries;
        }
      }
      if resp.canceled {
        return false, Canceled, retries;
      }
      if resp.retryable && retries < cfg.maxTurnRetries {
        var cut := env.backoffCut(asked.backoffs);
        asked := asked.(backoffs := asked.backoffs + 1);
        return !cut, Canceled, retries + 1;
      }
      return false, Failed, retries;
    }

    /** After an answer: append it, run its tools, and see whether the model must resume truncated output. */
    method Act(resp: InferOutcome, recovered: nat, ghost t: Turn)
      returns (goOn: bool, why: Stop, recoveries: nat, uses: nat)
      requires resp.Answer? && t.a == State() && t.recoveries == recovered
      modifies this
      ensures OnAnswer(env, cfg, t, resp) ==
        var u := t.(a := State(), steps := t.steps + 1, retries := 0, recoveries := recoveries,
                    toolUses := t.toolUses + uses, lastContent := resp.content);
        if goOn then Continue(u) else Finished(u, why)
    {
      recoveries, uses, why := recovered, 0, EndTurn;
      lastTotalInputTokens := resp.promptTokens;
      Append(Message("", Assistant, resp.content, resp.thinking, resp.calls, None));
      if resp.calls == [] {
        if !resp.hitTokenLimit {
          return false, EndTurn, recovered, 0;
        }
        goOn, recoveries := AskToResume(TRUNCATED_RESUME, recovered);
        return goOn, RecoveryExhausted, recoveries, 0;
      }
      uses := ExecTools(resp.calls);
      if resp.hitTokenLimit && AnyCut(env, resp.calls) {
        goOn, recoveries := AskToResume(TRUNCATED_TOOL_CALL_RESUME, recovered);
        return goOn, RecoveryExhausted, recoveries, uses;
      }
      return true, EndTurn, recovered, uses;
    }

    method AskToResume(prompt: string, recovered: nat) returns (ok: bool, recoveries: nat)
      modifies this
      ensures ok <==> recovered < MaxRecovery(cfg)
      ensures if ok then State() == TurnSpec.Append(env, old(State()), UserText(prompt)) && recoveries == recovered + 1
              else State() == old(State()) && recoveries == recovered
    {
      var maxRecovery := if cfg.maxOutputRecovery <= 0 then 3 else cfg.maxOutputRecovery;
      if recovered >= maxRecovery {
        return false, recovered;
      }
      Append(UserText(prompt));
      return true, recovered + 1;
    }
  }
}
