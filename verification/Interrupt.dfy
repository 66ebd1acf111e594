/**
 internal/core/agent_impl.go, Run, runOneTurn and InterruptCurrentTurn: a two-variable handshake without locks,
 between the agent's goroutine and one interrupting caller, as atomic steps in any interleaving.
 */
module Interrupt {
  import opened Wrappers

  /** How a turn ended: skipped because of a latched interrupt, or with ThinkAct's error. */
  datatype Ending = Bailed | Finished | Canceled | Failed

  /** Where the agent stands; `h` is the handle of the turn it is in. */
  datatype Place =
    | Waiting                          // in waitForInput
    | Accepted                         // waitForInput returned, the latch not yet cleared for the new message
    | Starting                         // about to publish a turn
    | Published(h: nat)                // published, the latch not yet looked at
    | Thinking(h: nat)                 // inside ThinkAct
    | Unwinding(h: nat, end: Ending)   // ThinkAct is over, the handle not yet detached
    | Detached(h: nat, end: Ending)    // the agent took its handle back and must cancel it
    | Closing(h: nat, end: Ending)     // about to close done
    | Returned(end: Ending)            // runOneTurn returned
    | Clearing                         // about to clear the latch that canceled the turn
    | Draining                         // about to drain the inbox
    | Ended

  /** Where the interrupting caller stands. */
  datatype Caller = Resting | Stored | Holding(h: nat)

  datatype State = State(
    turn: Option<nat>,          // the published handle
    latch: bool,
    next: nat,                  // the handles below are those created so far
    cancels: multiset<nat>,     // one per call of a handle's cancel
    closes: multiset<nat>,      // one per close of a handle's done
    place: Place,
    caller: Caller,
    stopped: bool)              // Run's own context is cancelled

  const START := State(None, false, 0, multiset{}, multiset{}, Waiting, Resting, false)

  datatype Drained = Nothing | TurnStart | Stop

  datatype Action =
    | AcceptInput | StopWaiting | ClearLatch | Publish | CheckLatch | EndThinkAct(end: Ending)
    | Detach | CancelOwn | CloseDone | Dispatch | ConsumeLatch | DrainInbox(got: Drained)
    | StoreLatch | SwapTurn | CancelHeld
    | CancelRun

  predicate InTurn(p: Place, h: nat) {
    (p.Published? || p.Thinking? || p.Unwinding? || p.Detached? || p.Closing?) && p.h == h
  }

  /** The next state, or nothing where the action cannot happen. */
  function Step(s: State, a: Action): Option<State> {
    match a
    case AcceptInput => if s.place.Waiting? then Some(s.(place := Accepted)) else None
    case StopWaiting => if s.place.Waiting? then Some(s.(place := Ended)) else None
    case ClearLatch => if s.place.Accepted? then Some(s.(latch := false, place := Starting)) else None
    case Publish =>
      if s.place.Starting? then Some(s.(turn := Some(s.next), next := s.next + 1, place := Published(s.next))) else None
    case CheckLatch =>
      if !s.place.Published? then None
      else if s.latch then Some(s.(latch := false, place := Unwinding(s.place.h, Bailed)))
      else Some(s.(place := Thinking(s.place.h)))
    case EndThinkAct(end) =>
      if s.place.Thinking? && !end.Bailed? then Some(s.(place := Unwinding(s.place.h, end))) else None
    case Detach =>
      if !s.place.Unwinding? then None
      else if s.turn == Some(s.place.h) then Some(s.(turn := None, place := Detached(s.place.h, s.place.end)))
      else Some(s.(place := Closing(s.place.h, s.place.end)))
    case CancelOwn =>
      if s.place.Detached? then
        Some(s.(cancels := s.cancels + multiset{s.place.h}, place := Closing(s.place.h, s.place.end)))
      else None
    case CloseDone =>
      if s.place.Closing? then
        Some(s.(closes := s.closes + multiset{s.place.h}, place := Returned(s.place.end)))
      else None
    case Dispatch =>
      if !s.place.Returned? then None
      else
        (match s.place.end
         case Bailed => Some(s.(place := Waiting))
         case Finished => Some(s.(place := Draining))
         case Canceled => Some(s.(place := if s.stopped then Ended else Clearing))
         case Failed => Some(s.(place := Ended)))
    case ConsumeLatch => if s.place.Clearing? then Some(s.(latch := false, place := Waiting)) else None
    case DrainInbox(got) =>
      if !s.place.Draining? then None
      else Some(s.(place := match got case Nothing => Waiting case TurnStart => Starting case Stop => Ended))
    case StoreLatch => if s.caller.Resting? then Some(s.(latch := true, caller := Stored)) else None
    case SwapTurn =>
      if !s.caller.Stored? then None
      else Some(s.(turn := None, caller := if s.turn.Some? then Holding(s.turn.value) else Resting))
    case CancelHeld =>
      if s.caller.Holding? then Some(s.(cancels := s.cancels + multiset{s.caller.h}, caller := Resting)) else None
    case CancelRun => Some(s.(stopped := true))
  }

  function Reach(s: State, actions: seq<Action>): Option<State>
    decreases |actions|
  {
    if actions == [] then Some(s)
    else
      match Reach(s, actions[..|actions| - 1])
      case None => None
      case Some(t) => Step(t, actions[|actions| - 1])
  }

  /** ThinkAct is running under a context that nobody has cancelled. */
  predicate RunsLive(s: State) {
    s.place.Thinking? && s.cancels[s.place.h] == 0 && !s.stopped
  }

  /** The latch is not cleared on behalf of an accepted message. */
  predicate LatchLeft(actions: seq<Action>) {
    ClearLatch !in actions
  }

  /** waitForInput accepts no message. */
  predicate NothingAccepted(actions: seq<Action>) {
    AcceptInput !in actions
  }

  // ---------------------------------------------------------------------------
  // Every handle is accounted for.

  function One(b: bool): nat {
    if b then 1 else 0
  }

  /** A handle is cancelled once, or still to be cancelled by exactly one party. */
  predicate CancelOwed(s: State, h: nat) {
    s.cancels[h] + One(s.turn == Some(h)) + One(s.caller == Holding(h)) + One(s.place.Detached? && s.place.h == h) == 1
  }

  predicate CloseOwed(s: State, h: nat) {
    s.closes[h] + One(InTurn(s.place, h)) == 1
  }

  predicate Untouched(s: State, h: nat) {
    && s.cancels[h] == 0 && s.closes[h] == 0 && s.turn != Some(h) && s.caller != Holding(h) && !InTurn(s.place, h)
  }

  ghost predicate Accounted(s: State) {
    && (forall h :: 0 <= h < s.next ==> CancelOwed(s, h) && CloseOwed(s, h))
    && (forall h :: s.next <= h ==> Untouched(s, h))
    && TurnIsCurrent(s)
  }

  predicate TurnIsCurrent(s: State) {
    s.turn.Some? ==> InTurn(s.place, s.turn.value) && !s.place.Closing? && !s.place.Detached?
  }

  lemma StepKeepsCancelOwed(s: State, a: Action, h: nat)
    requires Step(s, a).Some? && TurnIsCurrent(s) && CancelOwed(s, h) && h != s.next
    ensures CancelOwed(Step(s, a).value, h)
  {
  }

  lemma StepKeepsCloseOwed(s: State, a: Action, h: nat)
    requires Step(s, a).Some? && CloseOwed(s, h) && h != s.next
    ensures CloseOwed(Step(s, a).value, h)
  {
  }

  lemma NewHandleIsOwed(s: State, a: Action)
    requires Step(s, a).Some? && Step(s, a).value.next != s.next && Untouched(s, s.next)
    ensures CancelOwed(Step(s, a).value, s.next) && CloseOwed(Step(s, a).value, s.next)
  {
  }

  lemma StepKeepsUntouched(s: State, a: Action, h: nat)
    requires Step(s, a).Some? && Untouched(s, h) && Step(s, a).value.next <= h
    ensures Untouched(Step(s, a).value, h)
  {
  }

  lemma StepKeepsTurnCurrent(s: State, a: Action)
    requires Step(s, a).Some? && TurnIsCurrent(s)
    ensures TurnIsCurrent(Step(s, a).value)
    ensures s.next <= Step(s, a).value.next <= s.next + 1
  {
  }

  lemma StepKeepsAccounts(s: State, a: Action)
    requires Accounted(s) && Step(s, a).Some?
    ensures Accounted(Step(s, a).value)
  {
    var t := Step(s, a).value;
    StepKeepsTurnCurrent(s, a);
    assert Untouched(s, s.next);
    forall h | 0 <= h < t.next ensures CancelOwed(t, h) && CloseOwed(t, h) {
      if h < s.next {
        StepKeepsCancelOwed(s, a, h);
        StepKeepsCloseOwed(s, a, h);
      } else {
        NewHandleIsOwed(s, a);
      }
    }
    forall h | t.next <= h ensures Untouched(t, h) {
      StepKeepsUntouched(s, a, h);
    }
  }

  lemma {:induction false} RunKeepsAccounts(s: State, actions: seq<Action>)
    requires Accounted(s) && Reach(s, actions).Some?
    ensures Accounted(Reach(s, actions).value)
    decreases |actions|
  {
    if actions == [] {
    } else {
      RunKeepsAccounts(s, actions[..|actions| - 1]);
      StepKeepsAccounts(Reach(s, actions[..|actions| - 1]).value, actions[|actions| - 1]);
    }
  }

  /** No handle is ever cancelled or closed twice, and none is closed while its ThinkAct runs. */
  lemma NeverTwice(actions: seq<Action>, h: nat)
    requires Reach(START, actions).Some?
    ensures var s := Reach(START, actions).value;
      s.cancels[h] <= 1 && s.closes[h] <= 1 && (s.closes[h] == 1 ==> s.place != Published(h) && s.place != Thinking(h))
  {
    RunKeepsAccounts(START, actions);
    var s := Reach(START, actions).value;
    if h < s.next {
      assert CancelOwed(s, h) && CloseOwed(s, h);
    } else {
      assert Untouched(s, h);
    }
  }

  /** With the agent between turns and the caller at rest, every handle was cancelled once and closed once. */
  lemma ExactlyOnce(actions: seq<Action>, h: nat)
    requires Reach(START, actions).Some?
    requires var s := Reach(START, actions).value;
      s.caller.Resting? && !(exists k :: 0 <= k < s.next && InTurn(s.place, k)) && h < s.next
    ensures var s := Reach(START, actions).value;
      s.cancels[h] == 1 && s.closes[h] == 1
  {
    RunKeepsAccounts(START, actions);
    var s := Reach(START, actions).value;
    assert CancelOwed(s, h) && CloseOwed(s, h) && !InTurn(s.place, h);
  }

  // ---------------------------------------------------------------------------
  // What an interrupt leaves behind while the latch is not cleared for a message.

  /** Places from which no turn starts without a newly accepted message. */
  predicate Settled(p: Place) {
    || p.Waiting? || p.Accepted? || p.Clearing? || p.Ended?
    || ((p.Unwinding? || p.Detached? || p.Closing? || p.Returned?) && p.end.Bailed?)
  }

  /** The interrupt is still latched, or has done its work. */
  predicate Pending(s: State) {
    s.latch || Settled(s.place)
  }

  lemma StepKeepsPending(s: State, a: Action)
    requires Pending(s) && a != ClearLatch && Step(s, a).Some?
    ensures Pending(Step(s, a).value)
  {
  }

  /** And the turn in flight, if any, is out of the published variable. */
  predicate Claimed(s: State) {
    Pending(s) && (s.place.Thinking? ==> s.turn != Some(s.place.h))
  }

  lemma StepKeepsClaimed(s: State, a: Action)
    requires Claimed(s) && a != ClearLatch && Step(s, a).Some?
    ensures Claimed(Step(s, a).value)
  {
  }

  lemma {:induction false} RunKeepsPending(s: State, actions: seq<Action>)
    requires Pending(s) && LatchLeft(actions) && Reach(s, actions).Some?
    ensures Pending(Reach(s, actions).value)
    decreases |actions|
  {
    if actions == [] {
    } else {
      RunKeepsPending(s, actions[..|actions| - 1]);
      StepKeepsPending(Reach(s, actions[..|actions| - 1]).value, actions[|actions| - 1]);
    }
  }

  lemma {:induction false} RunKeepsClaimed(s: State, actions: seq<Action>)
    requires Claimed(s) && LatchLeft(actions) && Reach(s, actions).Some?
    ensures Claimed(Reach(s, actions).value)
    decreases |actions|
  {
    if actions == [] {
    } else {
      RunKeepsClaimed(s, actions[..|actions| - 1]);
      StepKeepsClaimed(Reach(s, actions[..|actions| - 1]).value, actions[|actions| - 1]);
    }
  }

  lemma CancelledOnceClaimed(s: State)
    requires Accounted(s) && Claimed(s) && s.place.Thinking? && !s.caller.Holding?
    ensures s.cancels[s.place.h] == 1
  {
    var h := s.place.h;
    assert !Untouched(s, h);
    assert CancelOwed(s, h);
  }

  // ---------------------------------------------------------------------------
  // Exactly when it is obeyed.

  /** The agent has stopped for good, or will at the latch, unless a message is accepted first. */
  predicate Halted(s: State) {
    s.stopped ||
    match s.place
    case Waiting | Clearing | Ended => true
    case Accepted => false
    case Starting | Draining | Published(_) => s.latch
    case Thinking(h) => s.latch && s.cancels[h] > 0
    case Unwinding(_, end) => s.latch || !end.Finished?
    case Detached(_, end) => s.latch || !end.Finished?
    case Closing(_, end) => s.latch || !end.Finished?
    case Returned(end) => s.latch || !end.Finished?
  }

  lemma StepKeepsHalted(s: State, a: Action)
    requires Halted(s) && a != AcceptInput && Step(s, a).Some?
    ensures Halted(Step(s, a).value)
  {
  }

  lemma {:induction false} RunKeepsHalted(s: State, actions: seq<Action>)
    requires Halted(s) && NothingAccepted(actions) && Reach(s, actions).Some?
    ensures Halted(Reach(s, actions).value)
    decreases |actions|
  {
    if actions == [] {
      assert Reach(s, actions) == Some(s);
    } else {
      RunKeepsHalted(s, actions[..|actions| - 1]);
      StepKeepsHalted(Reach(s, actions[..|actions| - 1]).value, actions[|actions| - 1]);
    }
  }

  /** What the agent does next when the inbox holds a message and its ThinkAct ends without error. */
  function NextOf(p: Place): Action {
    match p
    case Accepted => ClearLatch
    case Starting => Publish
    case Published(_) => CheckLatch
    case Thinking(_) => EndThinkAct(Finished)
    case Unwinding(_, _) => Detach
    case Detached(_, _) => CancelOwn
    case Closing(_, _) => CloseDone
    case Returned(_) => Dispatch
    case Draining => DrainInbox(TurnStart)
    case _ => CancelRun
  }

  /** Steps left before a new turn runs. */
  function Distance(p: Place): nat {
    match p
    case Published(_) => 9
    case Thinking(_) => 8
    case Unwinding(_, _) => 7
    case Detached(_, _) => 6
    case Closing(_, _) => 5
    case Returned(_) => 4
    case Draining => 3
    case Accepted => 3
    case Starting => 2
    case _ => 0
  }

  /** A state that is not halted, and whose turn, if any, is not already live, moves on to the next live turn. */
  lemma StepsOn(s: State)
    requires Accounted(s) && !Halted(s) && !RunsLive(s)
    ensures var t := Step(s, NextOf(s.place));
      t.Some? && Accounted(t.value) && !Halted(t.value)
      && (RunsLive(t.value) || Distance(t.value.place) < Distance(s.place) || s.place.Starting?)
    ensures NextOf(s.place) != AcceptInput
  {
    StepKeepsAccounts(s, NextOf(s.place));
  }

  lemma ReachMore(s: State, a: Action, rest: seq<Action>)
    requires Step(s, a).Some?
    ensures Reach(s, [a] + rest) == Reach(Step(s, a).value, rest)
    decreases |rest|
  {
    if rest == [] {
      assert [a] + rest == [a] && [a][..0] == [];
      assert Reach(s, []) == Some(s);
    } else {
      ReachMore(s, a, rest[..|rest| - 1]);
      assert ([a] + rest)[..|rest|] == [a] + rest[..|rest| - 1];
    }
  }

  lemma StartsAfresh(s: State) returns (actions: seq<Action>)
    requires Accounted(s) && s.place.Starting? && !s.latch && !s.stopped
    ensures NothingAccepted(actions) && Reach(s, actions).Some? && RunsLive(Reach(s, actions).value)
  {
    var t := Step(s, Publish).value;
    assert Untouched(s, s.next);
    var u := Step(t, CheckLatch).value;
    actions := [Publish] + [CheckLatch];
    ReachMore(t, CheckLatch, []);
    assert [CheckLatch] + [] == [CheckLatch];
    ReachMore(s, Publish, [CheckLatch]);
  }

  lemma {:induction false} GoesLive(s: State) returns (actions: seq<Action>)
    requires Accounted(s) && !Halted(s)
    ensures NothingAccepted(actions) && Reach(s, actions).Some? && RunsLive(Reach(s, actions).value)
    decreases Distance(s.place)
  {
    if RunsLive(s) {
      actions := [];
    } else if s.place.Starting? {
      actions := StartsAfresh(s);
    } else {
      StepsOn(s);
      var a := NextOf(s.place);
      var t := Step(s, a).value;
      if RunsLive(t) {
        actions := [a] + [];
        ReachMore(s, a, []);
      } else {
        var rest := GoesLive(t);
        actions := [a] + rest;
        ReachMore(s, a, rest);
      }
    }
  }

  /** No continuation in which waitForInput accepts no message runs a live ThinkAct. */
  ghost predicate Obeyed(s: State) {
    forall future :: NothingAccepted(future) && Reach(s, future).Some? ==> !RunsLive(Reach(s, future).value)
  }

  /**
   From any reachable state, in particular when an interrupt has just returned: until waitForInput accepts a message
   the agent runs no live ThinkAct, whatever the interleaving, exactly when it is halted.
   */
  lemma ObeyedIffHalted(past: seq<Action>, s: State)
    requires Reach(START, past) == Some(s)
    ensures Obeyed(s) <==> Halted(s)
  {
    RunKeepsAccounts(START, past);
    if Halted(s) {
      forall future | NothingAccepted(future) && Reach(s, future).Some? ensures !RunsLive(Reach(s, future).value) {
        RunKeepsHalted(s, future);
      }
    } else {
      var future := GoesLive(s);
    }
  }

  lemma {:induction false} ReachConcat(s: State, first: seq<Action>, second: seq<Action>)
    requires Reach(s, first).Some?
    ensures Reach(s, first + second) == Reach(Reach(s, first).value, second)
    decreases |second|
  {
    if second == [] {
      assert first + second == first;
    } else {
      var all, n := first + second, |second| - 1;
      ReachConcat(s, first, second[..n]);
      assert all[..|all| - 1] == first + second[..n];
      assert all[|all| - 1] == second[n];
    }
  }

  /** One interrupt: Store, Swap and cancel, with the agent's own steps between and around them. */
  function Interruption(past: seq<Action>, window: seq<Action>, rest: seq<Action>): seq<Action> {
    past + [StoreLatch] + window + [SwapTurn] + rest
  }

  /**
   In every interleaving: an interrupt during which no latch is cleared for an accepted message leaves the agent
   halted, unless it returns with a message accepted whose latch clear is still to come. So it is obeyed exactly then.
   */
  lemma InterruptIsObeyed(past: seq<Action>, window: seq<Action>, rest: seq<Action>, s: State)
    requires Reach(START, Interruption(past, window, rest)) == Some(s) && !s.caller.Holding?
    requires LatchLeft(window) && LatchLeft(rest)
    ensures Halted(s) <==> s.stopped || !s.place.Accepted?
    ensures Obeyed(s) <==> s.stopped || !s.place.Accepted?
  {
    var s0, s1, s2, s3 := Stages(past, window, rest, s);
    RunKeepsPending(s1, window);
    RunKeepsClaimed(s3, rest);
    RunKeepsAccounts(START, Interruption(past, window, rest));
    if s.place.Thinking? {
      CancelledOnceClaimed(s);
    }
    ObeyedIffHalted(Interruption(past, window, rest), s);
  }

  lemma ReachPrefix(s: State, actions: seq<Action>, n: nat)
    requires n <= |actions| && Reach(s, actions).Some?
    ensures Reach(s, actions[..n]).Some?
    decreases |actions|
  {
    if n == |actions| {
      assert actions[..n] == actions;
    } else {
      ReachPrefix(s, actions[..|actions| - 1], n);
      assert actions[..|actions| - 1][..n] == actions[..n];
    }
  }

  /** The states at the Store, after it, at the Swap and after it. */
  lemma Stages(past: seq<Action>, window: seq<Action>, rest: seq<Action>, s: State)
    returns (s0: State, s1: State, s2: State, s3: State)
    requires Reach(START, Interruption(past, window, rest)) == Some(s)
    ensures Reach(START, past) == Some(s0) && Step(s0, StoreLatch) == Some(s1)
    ensures Reach(s1, window) == Some(s2) && Step(s2, SwapTurn) == Some(s3)
    ensures Reach(s3, rest) == Some(s)
  {
    var all := Interruption(past, window, rest);
    var toStore, toSwap := past + [StoreLatch], past + [StoreLatch] + window;
    assert all[..|past|] == past && all[..|toStore|] == toStore && all[..|toSwap|] == toSwap;
    assert all[..|toSwap| + 1] == toSwap + [SwapTurn];
    ReachPrefix(START, all, |past|);
    ReachPrefix(START, all, |toStore|);
    ReachPrefix(START, all, |toSwap|);
    ReachPrefix(START, all, |toSwap| + 1);
    s0 := Reach(START, past).value;
    s1 := Reach(START, toStore).value;
    s2 := Reach(START, toSwap).value;
    s3 := Reach(START, toSwap + [SwapTurn]).value;
    assert toStore[..|past|] == past && (toSwap + [SwapTurn])[..|toSwap|] == toSwap;
    ReachConcat(START, toStore, window);
    ReachConcat(START, toSwap + [SwapTurn], rest);
  }

  // ---------------------------------------------------------------------------
  // Three ways to lose an interrupt.

  lemma Follow(s: State, actions: seq<Action>, k: nat)
    requires k < |actions| && Reach(s, actions[..k]).Some?
    ensures Reach(s, actions[..k + 1]) == Step(Reach(s, actions[..k]).value, actions[k])
  {
    assert actions[..k + 1][..k] == actions[..k];
  }

  lemma SixSteps(actions: seq<Action>, s1: State, s2: State, s3: State, s4: State, s5: State, s6: State)
    requires |actions| == 6
    requires Step(START, actions[0]) == Some(s1) && Step(s1, actions[1]) == Some(s2) && Step(s2, actions[2]) == Some(s3)
    requires Step(s3, actions[3]) == Some(s4) && Step(s4, actions[4]) == Some(s5) && Step(s5, actions[5]) == Some(s6)
    ensures Reach(START, actions) == Some(s6)
  {
    assert actions[..0] == [] && actions[..6] == actions;
    Follow(START, actions, 0);
    Follow(START, actions, 1);
    Follow(START, actions, 2);
    Follow(START, actions, 3);
    Follow(START, actions, 4);
    Follow(START, actions, 5);
  }

  const OFF := START.(turn := Some(0), next := 1, place := Thinking(0))

  /** A latch clear between Store and Swap wipes the latch, and the Swap finds no turn: the new turn runs live. */
  lemma LostInTheWindow()
    ensures Reach(START, [AcceptInput, StoreLatch, ClearLatch, SwapTurn, Publish, CheckLatch]) == Some(OFF)
    ensures RunsLive(OFF) && OFF.caller.Resting?
  {
    SixSteps([AcceptInput, StoreLatch, ClearLatch, SwapTurn, Publish, CheckLatch],
             START.(place := Accepted), START.(place := Accepted, latch := true, caller := Stored),
             START.(place := Starting, caller := Stored), START.(place := Starting),
             OFF.(place := Published(0)), OFF);
  }

  /** An interrupt that starts after waitForInput has returned is lost if it ends before the latch is cleared. */
  lemma LostBeforeTheClear()
    ensures Reach(START, [AcceptInput, StoreLatch, SwapTurn, ClearLatch, Publish, CheckLatch]) == Some(OFF)
    ensures RunsLive(OFF) && OFF.caller.Resting?
  {
    SixSteps([AcceptInput, StoreLatch, SwapTurn, ClearLatch, Publish, CheckLatch],
             START.(place := Accepted), START.(place := Accepted, latch := true, caller := Stored),
             START.(place := Accepted, latch := true), START.(place := Starting),
             OFF.(place := Published(0)), OFF);
  }

  lemma FourSteps(s: State, actions: seq<Action>, s1: State, s2: State, s3: State, s4: State)
    requires |actions| == 4
    requires Step(s, actions[0]) == Some(s1) && Step(s1, actions[1]) == Some(s2)
    requires Step(s2, actions[2]) == Some(s3) && Step(s3, actions[3]) == Some(s4)
    ensures Reach(s, actions) == Some(s4)
  {
    assert actions[..0] == [] && actions[..4] == actions;
    Follow(s, actions, 0);
    Follow(s, actions, 1);
    Follow(s, actions, 2);
    Follow(s, actions, 3);
  }

  /** The first turn runs. */
  const FIRST := START.(turn := Some(0), next := 1, place := Thinking(0))
  /** It has ended while the interrupt holds its handle, which no longer stands for any turn. */
  const HELD := FIRST.(turn := None, latch := true, caller := Holding(0), place := Closing(0, Finished))
  /** The agent has received the next message. */
  const RECEIVED := HELD.(closes := multiset{0}, place := Accepted)
  /** The interrupt has returned, and the next turn runs. */
  const NEXT := State(Some(1), false, 2, multiset{0}, multiset{0}, Thinking(1), Resting, false)

  const TO_FIRST := [AcceptInput, ClearLatch, Publish, CheckLatch]
  const TO_HELD := [StoreLatch, SwapTurn, EndThinkAct(Finished), Detach]
  const TO_RECEIVED := [CloseDone, Dispatch, DrainInbox(Nothing), AcceptInput]
  const TO_NEXT := [ClearLatch, CancelHeld, Publish, CheckLatch]

  lemma ReachesFirst()
    ensures Reach(START, TO_FIRST) == Some(FIRST)
  {
    FourSteps(START, TO_FIRST, START.(place := Accepted), START.(place := Starting), FIRST.(place := Published(0)),
      FIRST);
  }

  lemma ReachesHeld()
    ensures Reach(FIRST, TO_HELD) == Some(HELD)
  {
    FourSteps(FIRST, TO_HELD, FIRST.(latch := true, caller := Stored), HELD.(place := Thinking(0)),
              HELD.(place := Unwinding(0, Finished)), HELD);
  }

  lemma ReachesReceived()
    ensures Reach(HELD, TO_RECEIVED) == Some(RECEIVED)
  {
    assert HELD.closes + multiset{0} == multiset{0};
    FourSteps(HELD, TO_RECEIVED, RECEIVED.(place := Returned(Finished)), RECEIVED.(place := Draining),
              RECEIVED.(place := Waiting), RECEIVED);
  }

  lemma ReachesNext()
    ensures Reach(RECEIVED, TO_NEXT) == Some(NEXT)
  {
    assert RECEIVED.cancels + multiset{0} == multiset{0};
    var returned := RECEIVED.(latch := false, place := Starting, cancels := multiset{0}, caller := Resting);
    FourSteps(RECEIVED, TO_NEXT, RECEIVED.(latch := false, place := Starting), returned, NEXT.(place := Published(1)),
      NEXT);
  }

  /**
   An interrupt that still holds an old handle when the latch is cleared for the next message cancels only the old
   turn.
   */
  lemma LostWhileHolding()
    ensures Reach(START, TO_FIRST + (TO_HELD + (TO_RECEIVED + TO_NEXT))) == Some(NEXT)
    ensures RunsLive(NEXT) && NEXT.caller.Resting?
  {
    ReachesFirst();
    ReachesHeld();
    ReachesReceived();
    ReachesNext();
    ReachConcat(HELD, TO_RECEIVED, TO_NEXT);
    ReachConcat(FIRST, TO_HELD, TO_RECEIVED + TO_NEXT);
    ReachConcat(START, TO_FIRST, TO_HELD + (TO_RECEIVED + TO_NEXT));
  }
}
