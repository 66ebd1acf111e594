/** internal/llm/sanitize.go: tool-call/tool-result adjacency of a provider request. */
module Sanitizer {
  import opened Messages
  import opened Pieces

  // ---------------------------------------------------------------------------
  // What the sanitized history is, message by message.

  /** `k` lies in the unbroken run of tool results that directly follows message `p`. */
  ghost predicate InRun(h: seq<Message>, p: int, k: int) {
    0 <= p < k < |h| && AllResults(h, p + 1, k + 1)
  }

  ghost predicate AllResults(h: seq<Message>, lo: int, hi: int) {
    0 <= lo <= hi <= |h| && forall j :: lo <= j < hi ==> IsResult(h[j])
  }

  ghost predicate Answered(h: seq<Message>, p: int, id: string) {
    exists k :: InRun(h, p, k) && ResultId(h[k]) == id
  }

  /** The calls among `calls` that the run after message `p` answers, in order. */
  ghost function AnsweredCalls(h: seq<Message>, p: int, calls: seq<ToolCall>): (kept: seq<ToolCall>)
    ensures forall c :: c in kept <==> c in calls && Answered(h, p, c.id)
  {
    if calls == [] then []
    else
      var rest := AnsweredCalls(h, p, calls[..|calls| - 1]);
      var c := calls[|calls| - 1];
      if Answered(h, p, c.id) then rest + [c] else rest
  }

  /** Result `k` answers a call of the message its run belongs to, and is the first in the run to do so. */
  ghost predicate FirstAnswer(h: seq<Message>, p: int, k: int) {
    && InRun(h, p, k)
    && BearsCalls(h[p])
    && HasCall(h[p], ResultId(h[k]))
    && forall j :: p < j < k ==> ResultId(h[j]) != ResultId(h[k])
  }

  ghost predicate Owned(h: seq<Message>, k: int) {
    exists p :: FirstAnswer(h, p, k)
  }

  /** What message `k` contributes to the output: itself, itself with fewer calls, or nothing. */
  ghost function Kept(h: seq<Message>, k: nat): (s: seq<Message>)
    ensures |s| <= 1
  {
    if k >= |h| then []
    else if IsResult(h[k]) then
      if Owned(h, k) then [h[k]] else []
    else if BearsCalls(h[k]) then
      var calls := AnsweredCalls(h, k, h[k].calls);
      if calls != [] || h[k].content != "" then [h[k].(calls := calls)] else []
    else
      [h[k]]
  }

  ghost function Keeping(h: seq<Message>): (f: nat -> seq<Message>)
    ensures forall k: nat :: |f(k)| <= 1
  {
    (k: nat) => Kept(h, k)
  }

  ghost function Sanitized(h: seq<Message>): seq<Message> {
    Join(Keeping(h), |h|)
  }

  /** Message `k` stands where providers allow it: its calls are answered in place, or it is a first answer. */
  ghost predicate WellPlaced(h: seq<Message>, k: nat)
    requires k < |h|
  {
    && (IsResult(h[k]) ==> Owned(h, k))
    && (BearsCalls(h[k]) ==> forall i :: 0 <= i < |h[k].calls| ==> Answered(h, k, h[k].calls[i].id))
  }

  ghost predicate Clean(h: seq<Message>) {
    forall k: nat :: k < |h| ==> WellPlaced(h, k)
  }

  // ---------------------------------------------------------------------------
  // The loop of the source computes exactly that history.

  method SanitizeToolMessages(msgs: seq<Message>) returns (result: seq<Message>)
    ensures result == Sanitized(msgs)
  {
    result := [];
    var i := 0;
    while i < |msgs|
      invariant 0 <= i <= |msgs|
      invariant result == Join(Keeping(msgs), i)
      invariant i < |msgs| ==> Unowned(msgs, i)
    {
      var msg := msgs[i];
      if msg.result.Some? {
        UnownedNext(msgs, i);
        i := i + 1;
        continue;
      }
      if !msg.role.Assistant? || msg.calls == [] {
        result := result + [msg];
        UnownedNext(msgs, i);
        i := i + 1;
        continue;
      }

      var j, resultIds := ScanRun(msgs, i);
      var filteredCalls, callIds := FilterCalls(msgs, i, resultIds);

      msg := msg.(calls := filteredCalls);
      if filteredCalls != [] || msg.content != "" {
        result := result + [msg];
      }

      result := AppendAnswers(msgs, i, j, callIds, result);
      i := j;
    }
  }

  /** Appends, for each kept call id, its first result in the run of message `p`. */
  method AppendAnswers(msgs: seq<Message>, p: nat, end: nat, callIds: set<string>, before: seq<Message>)
    returns (result: seq<Message>)
    requires p < end <= |msgs| && AllResults(msgs, p + 1, end) && BearsCalls(msgs[p])
    requires forall id :: id in callIds <==> HasCall(msgs[p], id) && Answered(msgs, p, id)
    requires before == Join(Keeping(msgs), p + 1)
    ensures result == Join(Keeping(msgs), end)
  {
    result := before;
    var seenResults: set<string> := {};
    NothingSeen(msgs, p, callIds);
    for k := p + 1 to end
      invariant result == Join(Keeping(msgs), k) && SeenAre(seenResults, msgs, p, k, callIds)
    {
      var id := ResultId(msgs[k]);
      OneMoreAnswer(msgs, p, k, end, callIds, seenResults);
      if id in callIds && id !in seenResults {
        result := result + [msgs[k]];
        seenResults := seenResults + {id};
      }
    }
  }

  /** The run of results after message `p`: where it ends, and which call ids it answers. */
  method ScanRun(msgs: seq<Message>, p: nat) returns (end: nat, resultIds: set<string>)
    requires p < |msgs|
    ensures p < end <= |msgs| && (end < |msgs| ==> !IsResult(msgs[end]))
    ensures AllResults(msgs, p + 1, end)
    ensures forall id :: id in resultIds <==> Answered(msgs, p, id)
  {
    end, resultIds := p + 1, {};
    while end < |msgs| && msgs[end].result.Some?
      invariant p < end <= |msgs|
      invariant AllResults(msgs, p + 1, end)
      invariant forall id :: id in resultIds <==> Seen(msgs, p, end, id)
      decreases |msgs| - end
    {
      resultIds := resultIds + {ResultId(msgs[end])};
      end := end + 1;
    }
    forall id ensures Seen(msgs, p, end, id) <==> Answered(msgs, p, id) {
      if Answered(msgs, p, id) {
        var k :| InRun(msgs, p, k) && ResultId(msgs[k]) == id;
        assert k < end;
      }
    }
  }

  /** The calls of message `p` that have a result in its run, and the ids of those calls. */
  method FilterCalls(msgs: seq<Message>, p: nat, resultIds: set<string>)
    returns (filtered: seq<ToolCall>, callIds: set<string>)
    requires p < |msgs| && forall id :: id in resultIds <==> Answered(msgs, p, id)
    ensures filtered == AnsweredCalls(msgs, p, msgs[p].calls)
    ensures forall id :: id in callIds <==> HasCall(msgs[p], id) && Answered(msgs, p, id)
  {
    var calls := msgs[p].calls;
    filtered, callIds := [], {};
    for c := 0 to |calls|
      invariant filtered == AnsweredCalls(msgs, p, calls[..c])
      invariant forall id :: id in callIds <==> id in resultIds && exists d :: 0 <= d < c && calls[d].id == id
    {
      assert calls[..c + 1][..c] == calls[..c];
      if calls[c].id in resultIds {
        filtered := filtered + [calls[c]];
        callIds := callIds + {calls[c].id};
      }
    }
    assert calls[..|calls|] == calls;
  }

  /** Some result strictly between `p` and `end` answers `id`. */
  ghost predicate Seen(h: seq<Message>, p: int, end: int, id: string) {
    exists k :: p < k < end && InRun(h, p, k) && ResultId(h[k]) == id
  }

  /** No call-bearing message owns a run that reaches `i`. */
  ghost predicate Unowned(h: seq<Message>, i: int) {
    forall p :: InRun(h, p, i) ==> !BearsCalls(h[p])
  }

  lemma UnownedNext(h: seq<Message>, i: int)
    requires 0 <= i < |h| && Unowned(h, i) && !BearsCalls(h[i])
    ensures !Owned(h, i)
    ensures i + 1 < |h| ==> Unowned(h, i + 1)
  {
    forall p | InRun(h, p, i + 1) ensures !BearsCalls(h[p]) {
      assert p == i || InRun(h, p, i);
    }
  }

  /** Within the run of a call-bearing message, being owned is being the first answer to that message. */
  lemma OwnedByCaller(h: seq<Message>, p: int, k: int)
    requires InRun(h, p, k) && BearsCalls(h[p])
    ensures Owned(h, k) <==> FirstAnswer(h, p, k)
    ensures FirstAnswer(h, p, k) <==>
      HasCall(h[p], ResultId(h[k])) && !Seen(h, p, k, ResultId(h[k]))
    ensures Answered(h, p, ResultId(h[k]))
  {
    if Owned(h, k) {
      var q :| FirstAnswer(h, q, k);
      assert q == p;
    }
    assert forall j :: p < j < k ==> InRun(h, p, j);
  }

  lemma SeenStep(h: seq<Message>, p: int, k: int)
    requires InRun(h, p, k)
    ensures forall id :: Seen(h, p, k + 1, id) <==> Seen(h, p, k, id) || id == ResultId(h[k])
  {
    forall id ensures Seen(h, p, k + 1, id) <==> Seen(h, p, k, id) || id == ResultId(h[k]) {
    }
  }

  /** The kept call ids that the run has answered before message `end`. */
  ghost predicate SeenAre(seen: set<string>, h: seq<Message>, p: int, end: int, callIds: set<string>) {
    forall id :: id in seen <==> id in callIds && Seen(h, p, end, id)
  }

  lemma NothingSeen(h: seq<Message>, p: nat, callIds: set<string>)
    ensures SeenAre({}, h, p, p + 1, callIds)
  {
  }

  /** Message `k` of the run is appended if it is the first to answer its kept call. */
  lemma OneMoreAnswer(h: seq<Message>, p: nat, k: nat, end: nat, callIds: set<string>, seen: set<string>)
    requires AllResults(h, p + 1, end) && p < k < end && BearsCalls(h[p]) && SeenAre(seen, h, p, k, callIds)
    requires forall id :: id in callIds <==> HasCall(h[p], id) && Answered(h, p, id)
    ensures var id := ResultId(h[k]);
      if id in callIds && id !in seen then
        Join(Keeping(h), k + 1) == Join(Keeping(h), k) + [h[k]] && SeenAre(seen + {id}, h, p, k + 1, callIds)
      else
        Join(Keeping(h), k + 1) == Join(Keeping(h), k) && SeenAre(seen, h, p, k + 1, callIds)
  {
    assert InRun(h, p, k);
    KeptAnswer(h, p, k);
    SeenStep(h, p, k);
  }

  lemma KeptAnswer(h: seq<Message>, p: nat, k: nat)
    requires InRun(h, p, k) && BearsCalls(h[p])
    ensures var id := ResultId(h[k]);
      && Answered(h, p, id)
      && Join(Keeping(h), k + 1) == Join(Keeping(h), k) + if HasCall(h[p], id) && !Seen(h, p, k, id) then [h[k]] else []
  {
    OwnedByCaller(h, p, k);
  }
}
