/** Every chain a ThinkAct run sends to the model is one the provider sanitizer leaves as it is. */
module TurnClean {
  import opened Wrappers
  import opened Messages
  import opened ChainEvents
  import opened Sanitizer
  import opened SanitizerLaws
  import opened TurnSpec

  /**
   What the outside parties must respect: a cancelled context stays cancelled, one response does not repeat a
   call id, and the inbox carries no tool results and no unanswered calls.
   */
  ghost predicate Tame(env: Env) {
    && (forall i: nat, j: nat :: i <= j && env.canceled(i) ==> env.canceled(j))
    && (forall n: nat :: env.infer(n).Answer? ==> DistinctCallIds(env.infer(n).calls))
    && (forall n: nat :: env.inbox(n).Input? ==> IsPlain(env.inbox(n).m))
  }

  ghost predicate Fit(env: Env, a: AgentState) {
    Clean(a.messages) || env.canceled(a.asked.looks)
  }

  /** From `a` to `b` every new request carried a well-formed chain, and `b` may go on. */
  ghost predicate Safe(env: Env, a: AgentState, b: AgentState) {
    && a.events <= b.events
    && (forall i :: |a.events| <= i < |b.events| && b.events[i].Requested? ==> Clean(b.events[i].chain))
    && Fit(env, b)
  }

  lemma SafeTwice(env: Env, a: AgentState, b: AgentState, c: AgentState)
    requires Safe(env, a, b) && Safe(env, b, c)
    ensures Safe(env, a, c)
  {
    assert forall i :: 0 <= i < |b.events| ==> c.events[i] == b.events[i];
  }

  lemma SingleIsClean(m: Message)
    requires IsPlain(m)
    ensures Clean([m])
  {
    AppendStaysCleanIffPlain([], m);
    assert [] + [m] == [m];
  }

  lemma AppendIsSafe(env: Env, a: AgentState, m: Message)
    requires Fit(env, a) && IsPlain(m)
    ensures Safe(env, a, Append(env, a, m))
  {
    if Clean(a.messages) {
      AppendStaysCleanIffPlain(a.messages, Stamped(env, a, m));
    }
  }

  lemma CompactIsSafe(env: Env, a: AgentState)
    requires Fit(env, a)
    ensures Safe(env, a, Compact(env, a).1)
  {
    var b := Compact(env, a).1;
    if b.messages != a.messages {
      SingleIsClean(b.messages[0]);
    }
  }

  lemma DrainIsSafe(env: Env, a: AgentState)
    requires Tame(env) && Fit(env, a)
    ensures Safe(env, a, Drain(env, a).1)
  {
    var polled := a.(asked := a.asked.(polls := a.asked.polls + 1));
    match env.inbox(a.asked.polls)
    case CompactNow(summary) => SingleIsClean(ApplyCompaction(env, polled, summary).messages[0]);
    case Input(m) => AppendIsSafe(env, polled, m);
    case _ =>
  }

  // ---------------------------------------------------------------------------
  // A tool batch leaves exactly one result per call, or a cancelled context.

  /** The calls split into those that already failed and those that became tasks. */
  ghost predicate Splits(calls: seq<ToolCall>, rs: seq<Message>, tasks: seq<ToolCall>) {
    && (forall k :: 0 <= k < |rs| ==>
      IsResult(rs[k]) && Calls(calls, ResultId(rs[k])) && !Calls(tasks, ResultId(rs[k])))
    && (forall j, k :: 0 <= j < k < |rs| ==> ResultId(rs[j]) != ResultId(rs[k]))
    && DistinctCallIds(tasks)
    && (forall id :: Calls(calls, id) <==> HasAnswer(rs, id) || Calls(tasks, id))
  }

  lemma CallsCons(c: ToolCall, calls: seq<ToolCall>)
    ensures forall id :: Calls([c] + calls, id) <==> id == c.id || Calls(calls, id)
  {
    forall id ensures Calls([c] + calls, id) <==> id == c.id || Calls(calls, id) {
      if Calls(calls, id) {
        var i :| 0 <= i < |calls| && calls[i].id == id;
        assert ([c] + calls)[i + 1].id == id;
      }
      if id == c.id {
        assert ([c] + calls)[0].id == id;
      }
    }
  }

  lemma AnswersCons(m: Message, rs: seq<Message>)
    ensures forall id :: HasAnswer([m] + rs, id) <==> id == ResultId(m) || HasAnswer(rs, id)
  {
    forall id ensures HasAnswer([m] + rs, id) <==> id == ResultId(m) || HasAnswer(rs, id) {
      if HasAnswer(rs, id) {
        var i :| 0 <= i < |rs| && ResultId(rs[i]) == id;
        assert ResultId(([m] + rs)[i + 1]) == id;
      }
      if id == ResultId(m) {
        assert ResultId(([m] + rs)[0]) == id;
      }
    }
  }

  lemma HeadIsFresh(calls: seq<ToolCall>)
    requires calls != [] && DistinctCallIds(calls)
    ensures DistinctCallIds(calls[1..]) && !Calls(calls[1..], calls[0].id)
    ensures forall id :: Calls(calls, id) <==> id == calls[0].id || Calls(calls[1..], id)
  {
    CallsCons(calls[0], calls[1..]);
    assert calls == [calls[0]] + calls[1..];
  }

  lemma OneMoreTask(calls: seq<ToolCall>, rs: seq<Message>, tasks: seq<ToolCall>)
    requires calls != [] && DistinctCallIds(calls) && Splits(calls[1..], rs, tasks)
    ensures Splits(calls, rs, [calls[0]] + tasks)
  {
    HeadIsFresh(calls);
    CallsCons(calls[0], tasks);
    var all := [calls[0]] + tasks;
    forall i, j | 0 <= i < j < |all| ensures all[i].id != all[j].id {
      if i == 0 {
        assert Calls(tasks, all[j].id) by { assert tasks[j - 1] == all[j]; }
      } else {
        assert all[i] == tasks[i - 1] && all[j] == tasks[j - 1];
      }
    }
  }

  lemma OneMoreFailure(calls: seq<ToolCall>, m: Message, rs: seq<Message>, tasks: seq<ToolCall>)
    requires calls != [] && DistinctCallIds(calls) && Splits(calls[1..], rs, tasks)
    requires IsResult(m) && ResultId(m) == calls[0].id
    ensures Splits(calls, [m] + rs, tasks)
  {
    HeadIsFresh(calls);
    AnswersCons(m, rs);
    assert !HasAnswer(rs, calls[0].id);
    var all := [m] + rs;
    forall j, k | 0 <= j < k < |all| ensures ResultId(all[j]) != ResultId(all[k]) {
      assert all[k] == rs[k - 1];
      assert HasAnswer(rs, ResultId(all[k]));
    }
  }

  /** From `a` to `b` the chain grew by `rs`, and observers heard of nothing but appended messages. */
  ghost predicate Adds(a: AgentState, b: AgentState, rs: seq<Message>) {
    && b.messages == a.messages + rs && a.events <= b.events
    && forall i :: |a.events| <= i < |b.events| ==> b.events[i].Appended?
  }

  lemma AddsNothing(a: AgentState, b: AgentState)
    requires b.messages == a.messages && b.events == a.events
    ensures Adds(a, b, [])
  {
  }

  lemma AddsOneMore(env: Env, a: AgentState, m: Message, b: AgentState, rs: seq<Message>)
    requires Adds(Append(env, a, m), b, rs)
    ensures Adds(a, b, [Stamped(env, a, m)] + rs)
  {
    var c := Append(env, a, m);
    assert b.messages == a.messages + ([Stamped(env, a, m)] + rs);
    assert forall i :: |a.events| <= i < |c.events| ==> b.events[i] == c.events[i];
  }

  /** Phase one either sees the cancellation or splits the calls. It never asks for an inference. */
  lemma {:induction false} ResolveSplits(env: Env, a: AgentState, calls: seq<ToolCall>, tasks: seq<ToolCall>)
    returns (rs: seq<Message>, added: seq<ToolCall>)
    requires Tame(env) && DistinctCallIds(calls)
    ensures var r := Resolve(env, a, calls, tasks);
      && Adds(a, r.0, rs) && r.1 == tasks + added
      && (env.canceled(r.0.asked.looks) || Splits(calls, rs, added))
    decreases |calls|
  {
    rs, added := [], [];
    if calls == [] {
      AddsNothing(a, a);
    } else if env.canceled(a.asked.looks) {
      AddsNothing(a, Looked(a));
      assert env.canceled(Looked(a).asked.looks);
    } else if env.knownTool(calls[0].name) {
      rs, added := ResolveSplits(env, Looked(a), calls[1..], tasks + [calls[0]]);
      if Splits(calls[1..], rs, added) {
        OneMoreTask(calls, rs, added);
      }
      added := [calls[0]] + added;
    } else {
      var m := ResultMessage(calls[0], "unknown tool: " + calls[0].name, true);
      var b := Append(env, Looked(a), m);
      rs, added := ResolveSplits(env, b, calls[1..], tasks);
      AddsOneMore(env, Looked(a), m, Resolve(env, b, calls[1..], tasks).0, rs);
      if Splits(calls[1..], rs, added) {
        OneMoreFailure(calls, Stamped(env, Looked(a), m), rs, added);
      }
      rs := [Stamped(env, Looked(a), m)] + rs;
    }
  }

  /** Phase three either sees the cancellation or records one result per task, in task order. */
  lemma {:induction false} RecordAnswers(env: Env, a: AgentState, tasks: seq<ToolCall>, first: nat, uses: nat)
    returns (rs: seq<Message>)
    requires Tame(env)
    ensures var b := Record(env, a, tasks, first, uses).0;
      && b.messages == a.messages + rs
      && a.events <= b.events
      && (forall i :: |a.events| <= i < |b.events| ==> b.events[i].Appended?)
      && (env.canceled(b.asked.looks) ||
        (|rs| == |tasks| && forall i :: 0 <= i < |rs| ==> IsResult(rs[i]) && ResultId(rs[i]) == tasks[i].id))
      && (env.canceled(a.asked.looks) ==> env.canceled(b.asked.looks))
    decreases |tasks|
  {
    rs := [];
    if tasks == [] || env.canceled(a.asked.looks) {
      if tasks != [] {
        assert env.canceled(Looked(a).asked.looks);
      }
      return;
    }
    var out := env.execute(first);
    var m := ResultMessage(tasks[0], out.content, out.failed);
    var rest := RecordAnswers(env, Append(env, Looked(a), m), tasks[1..], first + 1,
                              if out.failed then uses else uses + 1);
    rs := [Stamped(env, Looked(a), m)] + rest;
  }

  /** The results of both phases together answer every call exactly once. */
  lemma SplitsAnswer(calls: seq<ToolCall>, rs: seq<Message>, tasks: seq<ToolCall>, done: seq<Message>)
    requires Splits(calls, rs, tasks)
    requires |done| == |tasks| && forall i :: 0 <= i < |done| ==> IsResult(done[i]) && ResultId(done[i]) == tasks[i].id
    ensures AnswersExactly(calls, rs + done)
  {
    var all := rs + done;
    forall i | 0 <= i < |done| ensures Calls(tasks, ResultId(done[i])) {
      assert tasks[i].id == ResultId(done[i]);
    }
    forall id | Calls(calls, id) ensures HasAnswer(all, id) {
      if HasAnswer(rs, id) {
        var k :| 0 <= k < |rs| && ResultId(rs[k]) == id;
        assert ResultId(all[k]) == id;
      } else {
        var k :| 0 <= k < |tasks| && tasks[k].id == id;
        assert ResultId(all[|rs| + k]) == id;
      }
    }
    forall j, k | 0 <= j < k < |all| ensures ResultId(all[j]) != ResultId(all[k]) {
      if j < |rs| <= k {
        assert Calls(tasks, ResultId(done[k - |rs|]));
      } else if |rs| <= j {
        assert tasks[j - |rs|].id != tasks[k - |rs|].id;
      }
    }
  }

  lemma ExecToolsAnswers(env: Env, a: AgentState, calls: seq<ToolCall>) returns (rs: seq<Message>)
    requires Tame(env) && DistinctCallIds(calls)
    ensures var b := ExecTools(env, a, calls).0;
      && b.messages == a.messages + rs
      && a.events <= b.events
      && (forall i :: |a.events| <= i < |b.events| ==> b.events[i].Appended?)
      && (env.canceled(b.asked.looks) || AnswersExactly(calls, rs))
  {
    var (resolved, tasks) := Resolve(env, a, calls, []);
    var first := resolved.asked.executions;
    var started := resolved.(asked := resolved.asked.(executions := first + |tasks|));
    var failed, added := ResolveSplits(env, a, calls, []);
    assert added == tasks;
    var done := RecordAnswers(env, started, tasks, first, 0);
    rs := failed + done;
    assert a.messages + failed + done == a.messages + rs;
    if !env.canceled(Record(env, started, tasks, first, 0).0.asked.looks) {
      SplitsAnswer(calls, failed, tasks, done);
    }
  }

  lemma ExecToolsIsSafe(env: Env, a: AgentState, h: seq<Message>, caller: Message)
    requires Tame(env) && Clean(h) && BearsCalls(caller) && DistinctCallIds(caller.calls)
    requires a.messages == h + [caller]
    ensures Safe(env, a, ExecTools(env, a, caller.calls).0)
  {
    var rs := ExecToolsAnswers(env, a, caller.calls);
    if AnswersExactly(caller.calls, rs) {
      AppendTurnStaysClean(h, caller, rs);
    }
  }

  // ---------------------------------------------------------------------------
  // The passes.

  lemma RecoverIsSafe(env: Env, cfg: Config, t: Turn, prompt: string)
    requires Fit(env, t.a)
    ensures Safe(env, t.a, Recover(env, cfg, t, prompt).t.a)
  {
    AppendIsSafe(env, t.a, UserText(prompt));
  }

  lemma OnAnswerIsSafe(env: Env, cfg: Config, t: Turn, n: nat)
    requires Tame(env) && Clean(t.a.messages) && env.infer(n).Answer?
    ensures Safe(env, t.a, OnAnswer(env, cfg, t, env.infer(n)).t.a)
  {
    var r := env.infer(n);
    var measured := t.a.(lastTotalInputTokens := r.promptTokens);
    var reply := Message("", Assistant, r.content, r.thinking, r.calls, None);
    var a := Append(env, measured, reply);
    var t1 := t.(a := a, steps := t.steps + 1, retries := 0, lastContent := r.content);
    if r.calls == [] {
      AppendIsSafe(env, measured, reply);
      if r.hitTokenLimit {
        RecoverIsSafe(env, cfg, t1, TRUNCATED_RESUME);
        SafeTwice(env, t.a, a, Recover(env, cfg, t1, TRUNCATED_RESUME).t.a);
      }
    } else {
      ExecToolsIsSafe(env, a, t.a.messages, Stamped(env, measured, reply));
      var (a2, uses) := ExecTools(env, a, r.calls);
      assert Safe(env, t.a, a2);
      var t2 := t1.(a := a2, toolUses := t1.toolUses + uses);
      RecoverIsSafe(env, cfg, t2, TRUNCATED_TOOL_CALL_RESUME);
      SafeTwice(env, t.a, a2, Recover(env, cfg, t2, TRUNCATED_TOOL_CALL_RESUME).t.a);
    }
  }

  lemma OnFailureIsSafe(env: Env, cfg: Config, t: Turn, r: InferOutcome)
    requires Fit(env, t.a) && r.Failure?
    ensures Safe(env, t.a, OnFailure(env, cfg, t, r).t.a)
  {
    CompactIsSafe(env, t.a);
  }

  lemma InferIsSafe(env: Env, cfg: Config, t: Turn)
    requires Tame(env) && Clean(t.a.messages)
    ensures Safe(env, t.a, Infer(env, cfg, t).t.a)
  {
    var asked := t.(a := t.a.(events := t.a.events + [Requested(t.a.messages)],
                              asked := t.a.asked.(infers := t.a.asked.infers + 1)));
    var n := t.a.asked.infers;
    if env.infer(n).Answer? {
      OnAnswerIsSafe(env, cfg, asked, n);
    } else {
      OnFailureIsSafe(env, cfg, asked, env.infer(n));
    }
    SafeTwice(env, t.a, asked.a, Infer(env, cfg, t).t.a);
  }

  lemma PassIsSafe(env: Env, cfg: Config, t: Turn)
    requires Tame(env) && Fit(env, t.a)
    ensures Safe(env, t.a, Pass(env, cfg, t).t.a)
  {
    var looked := t.(a := Looked(t.a));
    if !env.canceled(t.a.asked.looks) && !(cfg.maxSteps > 0 && t.steps >= cfg.maxSteps) {
      DrainIsSafe(env, looked.a);
      var (stopped, a) := if t.steps > 0 then Drain(env, looked.a) else (false, looked.a);
      DrainKeepsClean(env, looked.a);
      CompactIsSafe(env, a);
      var full := cfg.canCompact && cfg.inputLimit > 0 &&
        NeedsCompaction(PromptTokensOrEstimate(env, a), cfg.inputLimit);
      var (compacted, c) := if full then Compact(env, a) else (false, a);
      SafeTwice(env, t.a, a, c);
      if !stopped && !compacted {
        InferIsSafe(env, cfg, looked.(a := c));
        SafeTwice(env, t.a, c, Infer(env, cfg, looked.(a := c)).t.a);
      }
    }
  }

  lemma DrainKeepsClean(env: Env, a: AgentState)
    requires Tame(env) && Clean(a.messages)
    ensures Clean(Drain(env, a).1.messages)
  {
    var polled := a.(asked := a.asked.(polls := a.asked.polls + 1));
    match env.inbox(a.asked.polls)
    case CompactNow(summary) => SingleIsClean(ApplyCompaction(env, polled, summary).messages[0]);
    case Input(m) => AppendStaysCleanIffPlain(a.messages, Stamped(env, polled, m));
    case _ =>
  }

  lemma OneMorePassIsSafe(env: Env, cfg: Config, start: AgentState, o: Outcome)
    requires Tame(env) && Safe(env, start, o.t.a)
    ensures Safe(env, start, (if o.Continue? then Pass(env, cfg, o.t) else o).t.a)
  {
    if o.Continue? {
      PassIsSafe(env, cfg, o.t);
      SafeTwice(env, start, o.t.a, Pass(env, cfg, o.t).t.a);
    }
  }

  /** Every request of a run from a well-formed chain is well formed, under any step cap or none. */
  lemma {:induction false} RunIsSafe(env: Env, cfg: Config, t: Turn, n: nat)
    requires Tame(env) && Fit(env, t.a)
    ensures Safe(env, t.a, Passes(env, cfg, t, n).t.a)
  {
    if n == 0 {
      assert Passes(env, cfg, t, 0) == Continue(t);
    } else {
      RunIsSafe(env, cfg, t, n - 1);
      OneMorePassIsSafe(env, cfg, t.a, Passes(env, cfg, t, n - 1));
    }
  }

  /** Started on a chain the sanitizer leaves alone, a run only ever sends chains the sanitizer leaves alone. */
  lemma EveryRequestIsSanitized(env: Env, cfg: Config, t: Turn, n: nat, i: nat)
    requires Tame(env) && Sanitized(t.a.messages) == t.a.messages
    requires var events := Passes(env, cfg, t, n).t.a.events; |t.a.events| <= i < |events| && events[i].Requested?
    ensures var chain := Passes(env, cfg, t, n).t.a.events[i].chain; Sanitized(chain) == chain
  {
    FixedIffClean(t.a.messages);
    RunIsSafe(env, cfg, t, n);
    FixedIffClean(Passes(env, cfg, t, n).t.a.events[i].chain);
  }

  /** The demand on the inbox is exact: any other drained message makes the next request one the sanitizer rewrites. */
  lemma InboxMustBePlain(env: Env, a: AgentState, m: Message)
    requires Sanitized(a.messages) == a.messages && env.inbox(a.asked.polls) == Input(m)
    ensures var chain := Drain(env, a).1.messages; Sanitized(chain) == chain <==> IsPlain(m)
  {
    var polled := a.(asked := a.asked.(polls := a.asked.polls + 1));
    FixedIffClean(a.messages);
    AppendStaysCleanIffPlain(a.messages, Stamped(env, polled, m));
    FixedIffClean(a.messages + [Stamped(env, polled, m)]);
  }
}
