/**
 internal/core/agent_impl.go, ThinkAct: the books of a run. What the model said and what the inbox delivered is in the
 transcript, word for word and in order, and the counters count what is there.
 */
module TurnLedger {
  import opened Wrappers
  import opened Messages
  import opened ChainEvents
  import opened TurnSpec

  datatype Utterance = Utterance(content: string, thinking: string, calls: seq<ToolCall>)

  /** What a stretch of events shows: answers, messages from outside, successful tools, and prompts to resume. */
  datatype Ledger = Ledger(said: seq<Utterance>, received: seq<Message>, worked: nat, resumed: nat)

  const EMPTY := Ledger([], [], 0, 0)

  predicate IsResume(content: string) {
    || content == TRUNCATED_RESUME
    || content == TRUNCATED_TOOL_CALL_RESUME
  }

  /** One message, told by what it is; a summary of earlier messages is none of these. */
  function Entered(l: Ledger, m: Message): Ledger {
    if m.role.Assistant? then l.(said := l.said + [Utterance(m.content, m.thinking, m.calls)])
    else if m.result.Some? then if m.result.value.isError then l else l.(worked := l.worked + 1)
    else if IsResume(m.content) then l.(resumed := l.resumed + 1)
    else if SUMMARY_PREFIX <= m.content then l
    else l.(received := l.received + [m.(id := "")])
  }

  function After(l: Ledger, e: Event): Ledger {
    if e.Appended? then Entered(l, e.m) else l
  }

  function Tally(l: Ledger, events: seq<Event>): Ledger {
    if events == [] then l else After(Tally(l, events[..|events| - 1]), events[|events| - 1])
  }

  lemma TallyOne(l: Ledger, events: seq<Event>, e: Event)
    ensures Tally(l, events + [e]) == After(Tally(l, events), e)
  {
    assert (events + [e])[..|events|] == events;
  }

  // ---------------------------------------------------------------------------
  // What the outside parties said, by their own count.

  /** The answers among inferences `i` to `j`. */
  function Answers(env: Env, i: nat, j: nat): seq<Utterance>
    decreases j - i
  {
    if j <= i then []
    else
      var r := env.infer(j - 1);
      Answers(env, i, j - 1) + if r.Answer? then [Utterance(r.content, r.thinking, r.calls)] else []
  }

  /** The messages among inbox items `i` to `j`, without their ids, summaries aside. */
  function Inputs(env: Env, i: nat, j: nat): seq<Message>
    decreases j - i
  {
    if j <= i then []
    else
      var item := env.inbox(j - 1);
      Inputs(env, i, j - 1) + if item.Input? && !(SUMMARY_PREFIX <= item.m.content) then [item.m.(id := "")] else []
  }

  /** The inbox delivers what people say: no answers, no tool results, and not the engine's own prompts. */
  ghost predicate Outside(env: Env) {
    forall n: nat :: env.inbox(n).Input? ==>
      var m := env.inbox(n).m; !m.role.Assistant? && m.result.None? && !IsResume(m.content)
  }

  /** The content of the last of these answers, if there is one. */
  function LastSaid(said: seq<Utterance>, otherwise: string): string {
    if said == [] then otherwise else said[|said| - 1].content
  }

  /** What the events since number `b` show. */
  function Book(a: AgentState, b: nat): Ledger
    requires b <= |a.events|
  {
    Tally(EMPTY, a.events[b..])
  }

  /** The books of turn `u` since turn `t`. */
  ghost predicate Balanced(env: Env, t: Turn, u: Turn) {
    var i, j, p, q := t.a.asked.infers, u.a.asked.infers, t.a.asked.polls, u.a.asked.polls;
    && i <= j && p <= q && |t.a.events| <= |u.a.events|
    && t.toolUses <= u.toolUses && t.recoveries <= u.recoveries
    && Book(u.a, |t.a.events|) ==
         Ledger(Answers(env, i, j), Inputs(env, p, q), u.toolUses - t.toolUses, u.recoveries - t.recoveries)
    && u.steps == t.steps + |Answers(env, i, j)|
    && u.lastContent == LastSaid(Answers(env, i, j), t.lastContent)
  }

  // ---------------------------------------------------------------------------
  // Each step of the engine in the books.

  /** From `a` to `a'` the books since number `b` became `l`, and nobody was asked for an answer or an item. */
  ghost predicate Enters(a: AgentState, a': AgentState, b: nat, l: Ledger) {
    && b <= |a.events| <= |a'.events| && Book(a', b) == l
    && a'.asked.infers == a.asked.infers && a'.asked.polls == a.asked.polls
  }

  lemma BookOne(events: seq<Event>, e: Event, b: nat)
    requires b <= |events|
    ensures Tally(EMPTY, (events + [e])[b..]) == After(Tally(EMPTY, events[b..]), e)
  {
    assert (events + [e])[b..] == events[b..] + [e];
    TallyOne(EMPTY, events[b..], e);
  }

  lemma AppendEnters(env: Env, a: AgentState, m: Message, b: nat)
    requires b <= |a.events|
    ensures Enters(a, Append(env, a, m), b, Entered(Book(a, b), m))
  {
    BookOne(a.events, Appended(Stamped(env, a, m)), b);
  }

  lemma SummaryIsNoResume(summary: string)
    ensures !IsResume(SUMMARY_PREFIX + summary) && SUMMARY_PREFIX <= SUMMARY_PREFIX + summary
  {
    assert (SUMMARY_PREFIX + summary)[0] == 'P';
    assert TRUNCATED_RESUME[0] == 'Y' && TRUNCATED_TOOL_CALL_RESUME[0] == 'Y';
  }

  lemma CompactionEnters(env: Env, a: AgentState, summary: string, b: nat)
    requires b <= |a.events|
    ensures Enters(a, ApplyCompaction(env, a, summary), b, Book(a, b))
  {
    var m := UserText(SUMMARY_PREFIX + summary).(id := env.freshId(a.asked.ids));
    SummaryIsNoResume(summary);
    BookOne(a.events, Appended(m), b);
    BookOne(a.events + [Appended(m)], Compacted(m.id), b);
    assert a.events + [Appended(m)] + [Compacted(m.id)] == a.events + [Appended(m), Compacted(m.id)];
  }

  lemma CompactEnters(env: Env, a: AgentState, b: nat)
    requires b <= |a.events|
    ensures Enters(a, Compact(env, a).1, b, Book(a, b))
  {
    var asked := a.(asked := a.asked.(summaries := a.asked.summaries + 1));
    if |a.messages| >= 3 && env.summarize(a.asked.summaries).Some? {
      CompactionEnters(env, asked, env.summarize(a.asked.summaries).value, b);
    }
  }

  lemma DrainEnters(env: Env, a: AgentState, b: nat, p: nat)
    requires Outside(env) && b <= |a.events| && p <= a.asked.polls
    ensures var d := Drain(env, a).1;
      && b <= |d.events| && d.asked.infers == a.asked.infers && d.asked.polls == a.asked.polls + 1
      && Inputs(env, p, a.asked.polls) <= Inputs(env, p, d.asked.polls)
      && Book(d, b) == Book(a, b).(received := Book(a, b).received +
           Inputs(env, p, d.asked.polls)[|Inputs(env, p, a.asked.polls)|..])
  {
    var polled := a.(asked := a.asked.(polls := a.asked.polls + 1));
    match env.inbox(a.asked.polls)
    case CompactNow(summary) => CompactionEnters(env, polled, summary, b);
    case Input(m) => AppendEnters(env, polled, m, b);
    case _ =>
  }

  lemma {:induction false} ResolveEnters(env: Env, a: AgentState, calls: seq<ToolCall>, tasks: seq<ToolCall>, b: nat)
    requires b <= |a.events|
    ensures Enters(a, Resolve(env, a, calls, tasks).0, b, Book(a, b))
    decreases |calls|
  {
    if calls != [] && !env.canceled(a.asked.looks) {
      if env.knownTool(calls[0].name) {
        ResolveEnters(env, Looked(a), calls[1..], tasks + [calls[0]], b);
      } else {
        var m := ResultMessage(calls[0], "unknown tool: " + calls[0].name, true);
        AppendEnters(env, Looked(a), m, b);
        ResolveEnters(env, Append(env, Looked(a), m), calls[1..], tasks, b);
      }
    }
  }

  lemma {:induction false} RecordEnters(env: Env, a: AgentState, tasks: seq<ToolCall>, first: nat, uses: nat, b: nat)
    requires b <= |a.events|
    ensures var (c, used) := Record(env, a, tasks, first, uses);
      && uses <= used && Enters(a, c, b, Book(a, b).(worked := Book(a, b).worked + (used - uses)))
    decreases |tasks|
  {
    if tasks != [] && !env.canceled(a.asked.looks) {
      var out := env.execute(first);
      var m := ResultMessage(tasks[0], out.content, out.failed);
      AppendEnters(env, Looked(a), m, b);
      RecordEnters(env, Append(env, Looked(a), m), tasks[1..], first + 1, if out.failed then uses else uses + 1, b);
    }
  }

  lemma ExecEnters(env: Env, a: AgentState, calls: seq<ToolCall>, b: nat)
    requires b <= |a.events|
    ensures var (c, used) := ExecTools(env, a, calls);
      Enters(a, c, b, Book(a, b).(worked := Book(a, b).worked + used))
  {
    var (resolved, tasks) := Resolve(env, a, calls, []);
    var first := resolved.asked.executions;
    ResolveEnters(env, a, calls, [], b);
    RecordEnters(env, resolved.(asked := resolved.asked.(executions := first + |tasks|)), tasks, first, 0, b);
  }

  /** An outcome of a turn: what it adds to the books, besides answers, is what it adds to the counters. */
  ghost predicate Counts(t: Turn, u: Turn, b: nat, l: Ledger) {
    && t.toolUses <= u.toolUses && t.recoveries <= u.recoveries
    && Enters(t.a, u.a, b,
         l.(worked := l.worked + (u.toolUses - t.toolUses), resumed := l.resumed + (u.recoveries - t.recoveries)))
  }

  lemma RecoverCounts(env: Env, cfg: Config, t: Turn, prompt: string, b: nat)
    requires b <= |t.a.events| && IsResume(prompt)
    ensures var u := Recover(env, cfg, t, prompt).t;
      Counts(t, u, b, Book(t.a, b)) && u.steps == t.steps && u.lastContent == t.lastContent
  {
    AppendEnters(env, t.a, UserText(prompt), b);
  }

  lemma AnswerCounts(env: Env, cfg: Config, t: Turn, r: InferOutcome, b: nat)
    requires b <= |t.a.events| && r.Answer?
    ensures var u := OnAnswer(env, cfg, t, r).t;
      var l := Book(t.a, b);
      && Counts(t, u, b, l.(said := l.said + [Utterance(r.content, r.thinking, r.calls)]))
      && u.steps == t.steps + 1 && u.lastContent == r.content
  {
    var reply := Message("", Assistant, r.content, r.thinking, r.calls, None);
    var measured := t.a.(lastTotalInputTokens := r.promptTokens);
    AppendEnters(env, measured, reply, b);
    var a := Append(env, measured, reply);
    var t1 := t.(a := a, steps := t.steps + 1, retries := 0, lastContent := r.content);
    if r.calls == [] {
      RecoverCounts(env, cfg, t1, TRUNCATED_RESUME, b);
    } else {
      ExecEnters(env, a, r.calls, b);
      var (a2, uses) := ExecTools(env, a, r.calls);
      RecoverCounts(env, cfg, t1.(a := a2, toolUses := t1.toolUses + uses), TRUNCATED_TOOL_CALL_RESUME, b);
    }
  }

  lemma FailureCounts(env: Env, cfg: Config, t: Turn, r: InferOutcome, b: nat)
    requires b <= |t.a.events| && r.Failure?
    ensures var u := OnFailure(env, cfg, t, r).t;
      Counts(t, u, b, Book(t.a, b)) && u.steps == t.steps && u.lastContent == t.lastContent
  {
    CompactEnters(env, t.a, b);
  }

  // ---------------------------------------------------------------------------
  // The books stay balanced.

  function Asking(a: AgentState): AgentState {
    a.(events := a.events + [Requested(a.messages)], asked := a.asked.(infers := a.asked.infers + 1))
  }

  lemma RequestKeepsBook(a: AgentState, b: nat)
    requires b <= |a.events|
    ensures Book(Asking(a), b) == Book(a, b)
  {
    BookOne(a.events, Requested(a.messages), b);
  }

  /** What is owed after inference number `i`, which the turn asked for: its answer, if it has one. */
  lemma InferCounts(env: Env, cfg: Config, t: Turn, b: nat)
    requires b <= |t.a.events|
    ensures var u := Infer(env, cfg, t).t;
      var l, r := Book(t.a, b), env.infer(t.a.asked.infers);
      if r.Answer? then
        && Counts(t.(a := Asking(t.a)), u, b, l.(said := l.said + [Utterance(r.content, r.thinking, r.calls)]))
        && u.steps == t.steps + 1 && u.lastContent == r.content
      else Counts(t.(a := Asking(t.a)), u, b, l) && u.steps == t.steps && u.lastContent == t.lastContent
  {
    RequestKeepsBook(t.a, b);
    var asked, r := t.(a := Asking(t.a)), env.infer(t.a.asked.infers);
    if r.Answer? {
      AnswerCounts(env, cfg, asked, r, b);
    } else {
      FailureCounts(env, cfg, asked, r, b);
    }
  }

  lemma InferBalances(env: Env, cfg: Config, start: Turn, t: Turn)
    requires Balanced(env, start, t)
    ensures Balanced(env, start, Infer(env, cfg, t).t)
  {
    InferCounts(env, cfg, t, |start.a.events|);
  }

  /** A step that only looks, drains or compacts. */
  lemma MovesOn(env: Env, start: Turn, t: Turn, a: AgentState)
    requires Balanced(env, start, t) && Enters(t.a, a, |start.a.events|, Book(t.a, |start.a.events|))
    ensures Balanced(env, start, t.(a := a))
  {
  }

  lemma DrainBalances(env: Env, start: Turn, t: Turn)
    requires Outside(env) && Balanced(env, start, t)
    ensures Balanced(env, start, t.(a := Drain(env, t.a).1))
  {
    DrainEnters(env, t.a, |start.a.events|, start.a.asked.polls);
  }

  lemma CompactThenInferBalances(env: Env, cfg: Config, start: Turn, t: Turn)
    requires Balanced(env, start, t)
    ensures Balanced(env, start, CompactThenInfer(env, cfg, t).t)
  {
    var full := cfg.canCompact && cfg.inputLimit > 0 &&
      NeedsCompaction(PromptTokensOrEstimate(env, t.a), cfg.inputLimit);
    var (compacted, a) := if full then Compact(env, t.a) else (false, t.a);
    CompactEnters(env, t.a, |start.a.events|);
    MovesOn(env, start, t, a);
    if !compacted {
      InferBalances(env, cfg, start, t.(a := a));
    }
  }

  lemma PassBalances(env: Env, cfg: Config, start: Turn, t: Turn)
    requires Outside(env) && Balanced(env, start, t)
    ensures Balanced(env, start, Pass(env, cfg, t).t)
  {
    var seen := t.(a := Looked(t.a));
    MovesOn(env, start, t, Looked(t.a));
    DrainBalances(env, start, seen);
    var (stopped, a) := if t.steps > 0 then Drain(env, seen.a) else (false, seen.a);
    CompactThenInferBalances(env, cfg, start, seen.(a := a));
  }

  lemma StartBalances(env: Env, t: Turn)
    ensures Balanced(env, t, t)
  {
    assert t.a.events[|t.a.events|..] == [];
  }

  /**
   Over any number of passes under any cap, the answers appended are those the model gave, in order and unaltered; the
   messages received are those the inbox delivered, in order; the counters of tool uses, recoveries and steps count the
   results without error, the prompts to resume and the answers; and the last content is that of the last answer.
   */
  lemma {:induction false} BooksBalance(env: Env, cfg: Config, t: Turn, n: nat)
    requires Outside(env)
    ensures Balanced(env, t, Passes(env, cfg, t, n).t)
  {
    if n == 0 {
      StartBalances(env, t);
    } else {
      BooksBalance(env, cfg, t, n - 1);
      var o := Passes(env, cfg, t, n - 1);
      if o.Continue? {
        PassBalances(env, cfg, t, o.t);
      }
    }
  }
}
