/** What every ThinkAct run keeps: its inference budget and the story its events tell. */
module TurnLaws {
  import opened Wrappers
  import opened Messages
  import opened ChainEvents
  import opened TurnSpec

  // ---------------------------------------------------------------------------
  // The inference budget.

  /** Inference calls still possible: two per retry allowance and step, one of them only while a compaction is. */
  ghost function Budget(cfg: Config, t: Turn): int
    requires cfg.maxSteps > 0 && t.retries <= cfg.maxTurnRetries
  {
    if t.steps >= cfg.maxSteps then 0
    else PerStep(cfg) * (cfg.maxSteps - t.steps - 1) + 2 * (cfg.maxTurnRetries - t.retries) + 1 + MayCompact(t)
  }

  function PerStep(cfg: Config): nat {
    2 * (cfg.maxTurnRetries + 1)
  }

  lemma PassStaysInBudget(env: Env, cfg: Config, t: Turn)
    requires cfg.maxSteps > 0 && t.retries <= cfg.maxTurnRetries
    ensures var o := Pass(env, cfg, t);
      && (o.Continue? ==> o.t.retries <= cfg.maxTurnRetries)
      && o.t.a.asked.infers - t.a.asked.infers + (if o.Continue? then Budget(cfg, o.t) else 0) <= Budget(cfg, t)
  {
    PassSpends(env, cfg, t);
    var o := Pass(env, cfg, t);
    var used := o.t.a.asked.infers - t.a.asked.infers;
    BudgetIsSpent(cfg, t, o.t, used, o.Continue?);
  }

  lemma BudgetIsSpent(cfg: Config, t: Turn, u: Turn, used: int, goesOn: bool)
    requires cfg.maxSteps > 0 && t.retries <= cfg.maxTurnRetries && 0 <= used <= 1
    requires used == 1 || goesOn ==> t.steps < cfg.maxSteps
    requires goesOn ==> Spent(cfg, t, u, used)
    ensures goesOn ==> u.retries <= cfg.maxTurnRetries
    ensures used + (if goesOn then Budget(cfg, u) else 0) <= Budget(cfg, t)
  {
    if t.steps < cfg.maxSteps {
      var left := cfg.maxSteps - t.steps - 1;
      assert PerStep(cfg) * left >= 0;
      if goesOn && u.steps == t.steps + 1 && left > 0 {
        assert PerStep(cfg) * left == PerStep(cfg) * (left - 1) + PerStep(cfg);
      }
    }
  }

  /** With a positive step cap the run ends, after at most 2 * (maxTurnRetries + 1) inferences per step. */
  lemma {:induction false} RunStaysInBudget(env: Env, cfg: Config, t: Turn)
    requires cfg.maxSteps > 0 && t.retries <= cfg.maxTurnRetries
    ensures Run(env, cfg, t).0.a.asked.infers - t.a.asked.infers <= Budget(cfg, t)
    decreases cfg.maxSteps - t.steps, cfg.maxTurnRetries - t.retries, MayCompact(t)
  {
    PassStaysInBudget(env, cfg, t);
    var o := Pass(env, cfg, t);
    if o.Continue? {
      PassSpends(env, cfg, t);
      RunStaysInBudget(env, cfg, o.t);
    }
  }

  lemma InferencesAreBounded(env: Env, cfg: Config, t: Turn)
    requires cfg.maxSteps > 0 && t.steps == 0 && t.retries == 0
    ensures Run(env, cfg, t).0.a.asked.infers - t.a.asked.infers <= 2 * (cfg.maxTurnRetries + 1) * cfg.maxSteps
  {
    RunStaysInBudget(env, cfg, t);
    WholeBudget(cfg.maxSteps, cfg.maxTurnRetries);
  }

  lemma WholeBudget(cap: int, retries: int)
    ensures 2 * (retries + 1) * (cap - 1) + 2 * (retries + 1) == 2 * (retries + 1) * cap
  {
  }

  // ---------------------------------------------------------------------------
  // The story: observers who follow the events always know the chain.

  /** From `a` to `b` the events only grow, and the new ones tell how the chain changed. */
  ghost predicate Grows(a: AgentState, b: AgentState) {
    a.events <= b.events && Story(a.messages, b.events[|a.events|..], b.messages)
  }

  lemma GrowsTwice(a: AgentState, b: AgentState, c: AgentState)
    requires Grows(a, b) && Grows(b, c)
    ensures Grows(a, c)
  {
    StoryConcat(a.messages, b.events[|a.events|..], b.messages, c.events[|b.events|..], c.messages);
    assert c.events[|a.events|..] == b.events[|a.events|..] + c.events[|b.events|..];
  }

  lemma SameChainGrows(a: AgentState, b: AgentState)
    requires a.messages == b.messages && a.events == b.events
    ensures Grows(a, b)
  {
    assert b.events[|a.events|..] == [];
  }

  lemma AppendGrows(env: Env, a: AgentState, m: Message)
    ensures Grows(a, Append(env, a, m))
  {
    var b := Append(env, a, m);
    assert b.events[|a.events|..] == [Appended(Stamped(env, a, m))];
    OneEventStory(a.messages, Appended(Stamped(env, a, m)));
  }

  lemma ApplyCompactionGrows(env: Env, a: AgentState, summary: string)
    ensures Grows(a, ApplyCompaction(env, a, summary))
  {
    var b := ApplyCompaction(env, a, summary);
    var both := [Appended(b.messages[0]), Compacted(b.messages[0].id)];
    assert b.events[|a.events|..] == both;
    assert both[..1] == [Appended(b.messages[0])] && both[..1][..0] == [];
    var longer := a.messages + [b.messages[0]];
    assert ChainAfter(a.messages, both[..1]) == longer;
    assert longer[|longer| - 1..] == b.messages;
  }

  lemma CompactGrows(env: Env, a: AgentState)
    ensures Grows(a, Compact(env, a).1)
  {
    var asked := a.(asked := a.asked.(summaries := a.asked.summaries + 1));
    SameChainGrows(a, a);
    SameChainGrows(a, asked);
    if env.summarize(a.asked.summaries).Some? {
      ApplyCompactionGrows(env, asked, env.summarize(a.asked.summaries).value);
    }
  }

  lemma DrainGrows(env: Env, a: AgentState)
    ensures Grows(a, Drain(env, a).1)
  {
    var polled := a.(asked := a.asked.(polls := a.asked.polls + 1));
    SameChainGrows(a, polled);
    match env.inbox(a.asked.polls)
    case CompactNow(summary) => ApplyCompactionGrows(env, polled, summary);
    case Input(m) => AppendGrows(env, polled, m);
    case _ =>
  }

  lemma {:induction false} ResolveGrows(env: Env, a: AgentState, calls: seq<ToolCall>, tasks: seq<ToolCall>)
    ensures Grows(a, Resolve(env, a, calls, tasks).0)
    decreases |calls|
  {
    SameChainGrows(a, a);
    SameChainGrows(a, Looked(a));
    if calls != [] && !env.canceled(a.asked.looks) {
      if env.knownTool(calls[0].name) {
        ResolveGrows(env, Looked(a), calls[1..], tasks + [calls[0]]);
      } else {
        var m := ResultMessage(calls[0], "unknown tool: " + calls[0].name, true);
        AppendGrows(env, Looked(a), m);
        ResolveGrows(env, Append(env, Looked(a), m), calls[1..], tasks);
        GrowsTwice(a, Append(env, Looked(a), m), Resolve(env, a, calls, tasks).0);
      }
    }
  }

  lemma {:induction false} RecordGrows(env: Env, a: AgentState, tasks: seq<ToolCall>, first: nat, uses: nat)
    ensures Grows(a, Record(env, a, tasks, first, uses).0)
    decreases |tasks|
  {
    SameChainGrows(a, a);
    SameChainGrows(a, Looked(a));
    if tasks != [] && !env.canceled(a.asked.looks) {
      var out := env.execute(first);
      var m := ResultMessage(tasks[0], out.content, out.failed);
      AppendGrows(env, Looked(a), m);
      RecordGrows(env, Append(env, Looked(a), m), tasks[1..], first + 1, if out.failed then uses else uses + 1);
      GrowsTwice(a, Append(env, Looked(a), m), Record(env, a, tasks, first, uses).0);
    }
  }

  lemma ExecToolsGrows(env: Env, a: AgentState, calls: seq<ToolCall>)
    ensures Grows(a, ExecTools(env, a, calls).0)
  {
    ResolveGrows(env, a, calls, []);
    var (resolved, tasks) := Resolve(env, a, calls, []);
    var first := resolved.asked.executions;
    var started := resolved.(asked := resolved.asked.(executions := first + |tasks|));
    RecordGrows(env, started, tasks, first, 0);
    GrowsTwice(a, resolved, Record(env, started, tasks, first, 0).0);
  }

  lemma RecoverGrows(env: Env, cfg: Config, t: Turn, prompt: string)
    ensures Grows(t.a, Recover(env, cfg, t, prompt).t.a)
  {
    SameChainGrows(t.a, t.a);
    AppendGrows(env, t.a, UserText(prompt));
  }

  lemma OnAnswerGrows(env: Env, cfg: Config, t: Turn, r: InferOutcome)
    requires r.Answer?
    ensures Grows(t.a, OnAnswer(env, cfg, t, r).t.a)
  {
    var reply := Message("", Assistant, r.content, r.thinking, r.calls, None);
    var a := Append(env, t.a.(lastTotalInputTokens := r.promptTokens), reply);
    AppendGrows(env, t.a.(lastTotalInputTokens := r.promptTokens), reply);
    var t1 := t.(a := a, steps := t.steps + 1, retries := 0, lastContent := r.content);
    RecoverGrows(env, cfg, t1, TRUNCATED_RESUME);
    ExecToolsGrows(env, a, r.calls);
    var (a2, uses) := ExecTools(env, a, r.calls);
    var t2 := t1.(a := a2, toolUses := t1.toolUses + uses);
    RecoverGrows(env, cfg, t2, TRUNCATED_TOOL_CALL_RESUME);
    if r.calls == [] {
      GrowsTwice(t.a, a, Recover(env, cfg, t1, TRUNCATED_RESUME).t.a);
    } else {
      GrowsTwice(t.a, a, a2);
      GrowsTwice(t.a, a2, Recover(env, cfg, t2, TRUNCATED_TOOL_CALL_RESUME).t.a);
    }
  }

  lemma InferGrows(env: Env, cfg: Config, t: Turn)
    ensures Grows(t.a, Infer(env, cfg, t).t.a)
  {
    var asked := t.(a := t.a.(events := t.a.events + [Requested(t.a.messages)],
                              asked := t.a.asked.(infers := t.a.asked.infers + 1)));
    assert asked.a.events[|t.a.events|..] == [Requested(t.a.messages)];
    OneEventStory(t.a.messages, Requested(t.a.messages));
    InferAsked(env, cfg, t, asked);
    GrowsTwice(t.a, asked.a, Infer(env, cfg, t).t.a);
  }

  lemma InferAsked(env: Env, cfg: Config, t: Turn, asked: Turn)
    requires asked == t.(a := t.a.(events := t.a.events + [Requested(t.a.messages)],
                                   asked := t.a.asked.(infers := t.a.asked.infers + 1)))
    ensures Grows(asked.a, Infer(env, cfg, t).t.a)
  {
    var r := env.infer(t.a.asked.infers);
    if r.Answer? {
      OnAnswerGrows(env, cfg, asked, r);
    } else {
      OnFailureGrows(env, cfg, asked, r);
    }
  }

  lemma OnFailureGrows(env: Env, cfg: Config, t: Turn, r: InferOutcome)
    requires r.Failure?
    ensures Grows(t.a, OnFailure(env, cfg, t, r).t.a)
  {
    SameChainGrows(t.a, t.a);
    CompactGrows(env, t.a);
    var (compacted, a) := if cfg.canCompact && r.tooLong then Compact(env, t.a) else (false, t.a);
    SameChainGrows(a, a.(asked := a.asked.(backoffs := a.asked.backoffs + 1)));
    GrowsTwice(t.a, a, a.(asked := a.asked.(backoffs := a.asked.backoffs + 1)));
  }

  lemma PassGrows(env: Env, cfg: Config, t: Turn)
    ensures Grows(t.a, Pass(env, cfg, t).t.a)
  {
    var looked := t.(a := Looked(t.a));
    SameChainGrows(t.a, looked.a);
    DrainGrows(env, looked.a);
    var (stopped, a) := if t.steps > 0 then Drain(env, looked.a) else (false, looked.a);
    GrowsTwice(t.a, looked.a, a);
    CompactGrows(env, a);
    SameChainGrows(a, a);
    var full := cfg.canCompact && cfg.inputLimit > 0 && NeedsCompaction(PromptTokensOrEstimate(env, a), cfg.inputLimit);
    var (compacted, c) := if full then Compact(env, a) else (false, a);
    GrowsTwice(t.a, a, c);
    InferGrows(env, cfg, looked.(a := c));
    GrowsTwice(t.a, c, Infer(env, cfg, looked.(a := c)).t.a);
  }

  /**
   The events of a run tell its story, under any step cap or none: after any number of passes, the one that ended the
   loop included, every inference request carries the chain observers reconstruct.
   */
  lemma {:induction false} RunTellsItsStory(env: Env, cfg: Config, t: Turn, n: nat)
    ensures Grows(t.a, Passes(env, cfg, t, n).t.a)
  {
    if n == 0 {
      SameChainGrows(t.a, t.a);
    } else {
      RunTellsItsStory(env, cfg, t, n - 1);
      var o := Passes(env, cfg, t, n - 1);
      if o.Continue? {
        PassGrows(env, cfg, o.t);
        GrowsTwice(t.a, o.t.a, Pass(env, cfg, o.t).t.a);
      }
    }
  }

  // ---------------------------------------------------------------------------
  // Why the loop needs a positive cap to end.

  /** A model that answers every request with one call of a tool the agent does not have. */
  ghost function AlwaysCalls(): Env {
    Env(_ => Answer("", "", [ToolCall("call", "nosuchtool", "{}")], false, 0), _ => Nothing, _ => None,
        _ => false, _ => false, _ => ToolOutput("", false), _ => "id", _ => false, _ => false, _ => 0)
  }

  /**
   Without a positive cap there is a model against which the loop never ends: every pass asks for one more inference.
   */
  lemma {:induction false} UncappedNeverEnds(cfg: Config, t: Turn, n: nat)
    requires cfg.maxSteps <= 0
    ensures var o := Passes(AlwaysCalls(), cfg, t, n); o.Continue? && o.t.a.asked.infers == t.a.asked.infers + n
  {
    if n == 0 {
      assert Passes(AlwaysCalls(), cfg, t, 0) == Continue(t);
    } else {
      UncappedNeverEnds(cfg, t, n - 1);
      BusyPass(cfg, Passes(AlwaysCalls(), cfg, t, n - 1).t);
    }
  }

  lemma BusyPass(cfg: Config, t: Turn)
    requires cfg.maxSteps <= 0
    ensures var o := Pass(AlwaysCalls(), cfg, t); o.Continue? && o.t.a.asked.infers == t.a.asked.infers + 1
  {
    var env := AlwaysCalls();
    var looked := t.(a := Looked(t.a));
    var (stopped, a) := if t.steps > 0 then Drain(env, looked.a) else (false, looked.a);
    var full := cfg.canCompact && cfg.inputLimit > 0 && NeedsCompaction(PromptTokensOrEstimate(env, a), cfg.inputLimit);
    var (compacted, c) := if full then Compact(env, a) else (false, a);
    assert !stopped && !compacted;
    var asked := looked.(a := c.(events := c.events + [Requested(c.messages)],
      asked := c.asked.(infers := c.asked.infers + 1)));
    var r := env.infer(c.asked.infers);
    assert Pass(env, cfg, t) == OnAnswer(env, cfg, asked, r);
    AnswerSpends(env, cfg, asked, r);
  }
}
