/**
 internal/llm/sanitize.go: the sanitized history in closed form. Which messages survive is a condition on the input, and
 each stands at its rank among the survivors, with exactly its answered calls.
 */
module Survivors {
  import opened Messages
  import opened Pieces
  import opened Sanitizer
  import opened SanitizerLaws

  /** Plain messages survive, callers with text or an answered call, and results that are first answers. */
  ghost predicate Survives(h: seq<Message>, k: nat)
    requires k < |h|
  {
    if IsResult(h[k]) then exists p :: FirstAnswer(h, p, k)
    else
      || !BearsCalls(h[k]) || h[k].content != ""
      || exists i :: 0 <= i < |h[k].calls| && Answered(h, k, h[k].calls[i].id)
  }

  /** How many of the first `n` messages survive. */
  ghost function Rank(h: seq<Message>, n: nat): nat
    requires n <= |h|
  {
    if n == 0 then 0 else Rank(h, n - 1) + if Survives(h, n - 1) then 1 else 0
  }

  /** How many of the first `n` calls of message `k` are answered in its run. */
  ghost function AnsweredRank(h: seq<Message>, k: nat, n: nat): nat
    requires k < |h| && n <= |h[k].calls|
  {
    if n == 0 then 0 else AnsweredRank(h, k, n - 1) + if Answered(h, k, h[k].calls[n - 1].id) then 1 else 0
  }

  lemma OneMoreCall(h: seq<Message>, k: nat, n: nat)
    requires k < |h| && n < |h[k].calls|
    ensures var c := h[k].calls[n];
      AnsweredCalls(h, k, h[k].calls[..n + 1]) ==
      AnsweredCalls(h, k, h[k].calls[..n]) + if Answered(h, k, c.id) then [c] else []
  {
    assert h[k].calls[..n + 1][..n] == h[k].calls[..n];
  }

  lemma {:induction false} CallsRanked(h: seq<Message>, k: nat, n: nat)
    requires k < |h| && n <= |h[k].calls|
    ensures |AnsweredCalls(h, k, h[k].calls[..n])| == AnsweredRank(h, k, n)
  {
    if n > 0 {
      OneMoreCall(h, k, n - 1);
      CallsRanked(h, k, n - 1);
    }
  }

  /** The calls kept of the first `n`. */
  ghost function KeptOf(h: seq<Message>, k: nat, n: nat): seq<ToolCall>
    requires k < |h| && n <= |h[k].calls|
  {
    AnsweredCalls(h, k, h[k].calls[..n])
  }

  lemma {:induction false} KeptGrows(h: seq<Message>, k: nat, i: nat, n: nat)
    requires k < |h| && i <= n <= |h[k].calls|
    ensures KeptOf(h, k, i) <= KeptOf(h, k, n)
  {
    if i < n {
      KeptGrows(h, k, i, n - 1);
      OneMoreCall(h, k, n - 1);
    }
  }

  lemma CallAt(h: seq<Message>, k: nat, i: nat, n: nat)
    requires k < |h| && i < n <= |h[k].calls| && Answered(h, k, h[k].calls[i].id)
    ensures AnsweredRank(h, k, i) < |KeptOf(h, k, n)| && KeptOf(h, k, n)[AnsweredRank(h, k, i)] == h[k].calls[i]
  {
    OneMoreCall(h, k, i);
    CallsRanked(h, k, i);
    KeptGrows(h, k, i + 1, n);
  }

  /** The calls kept of message `k`: the answered ones, each at its rank among them. */
  ghost predicate KeepsAnswered(h: seq<Message>, k: nat, kept: seq<ToolCall>)
    requires k < |h|
  {
    && |kept| == AnsweredRank(h, k, |h[k].calls|)
    && forall i :: 0 <= i < |h[k].calls| && Answered(h, k, h[k].calls[i].id) ==>
      AnsweredRank(h, k, i) < |kept| && kept[AnsweredRank(h, k, i)] == h[k].calls[i]
  }

  lemma AnsweredKept(h: seq<Message>, k: nat)
    requires k < |h|
    ensures KeepsAnswered(h, k, AnsweredCalls(h, k, h[k].calls))
  {
    var n := |h[k].calls|;
    assert h[k].calls[..n] == h[k].calls;
    CallsRanked(h, k, n);
    forall i | 0 <= i < n && Answered(h, k, h[k].calls[i].id)
      ensures AnsweredRank(h, k, i) < |AnsweredCalls(h, k, h[k].calls)|
      ensures AnsweredCalls(h, k, h[k].calls)[AnsweredRank(h, k, i)] == h[k].calls[i]
    {
      CallAt(h, k, i, n);
    }
  }

  lemma SomeCallIsKept(h: seq<Message>, k: nat)
    requires k < |h|
    ensures AnsweredCalls(h, k, h[k].calls) != [] <==>
      exists i :: 0 <= i < |h[k].calls| && Answered(h, k, h[k].calls[i].id)
  {
    var kept := AnsweredCalls(h, k, h[k].calls);
    if kept != [] {
      assert kept[0] in h[k].calls && Answered(h, k, kept[0].id);
    }
    if i :| 0 <= i < |h[k].calls| && Answered(h, k, h[k].calls[i].id) {
      assert h[k].calls[i] in kept;
    }
  }

  lemma KeptIffSurvives(h: seq<Message>, k: nat)
    requires k < |h|
    ensures |Keeping(h)(k)| == if Survives(h, k) then 1 else 0
    ensures Survives(h, k) && !BearsCalls(h[k]) ==> Keeping(h)(k) == [h[k]]
    ensures Survives(h, k) && BearsCalls(h[k]) ==>
      Keeping(h)(k) == [h[k].(calls := AnsweredCalls(h, k, h[k].calls))]
  {
    assert Keeping(h)(k) == Kept(h, k);
    SomeCallIsKept(h, k);
  }

  lemma {:induction false} RankIsPos(h: seq<Message>, n: nat)
    requires n <= |h|
    ensures |Join(Keeping(h), n)| == Rank(h, n)
  {
    if n > 0 {
      RankIsPos(h, n - 1);
      KeptIffSurvives(h, n - 1);
    }
  }

  /**
   The output has one message for each survivor and no other, in order: a plain message or a first answer as it was, a
   caller with exactly its answered calls and otherwise as it was.
   */
  lemma OnlySurvivors(h: seq<Message>, k: nat)
    requires k < |h|
    ensures |Sanitized(h)| == Rank(h, |h|)
    ensures Survives(h, k) ==> Rank(h, k) < |Sanitized(h)|
    ensures Survives(h, k) ==>
      var m := Sanitized(h)[Rank(h, k)];
      if BearsCalls(h[k]) then KeepsAnswered(h, k, m.calls) && m == h[k].(calls := m.calls) else m == h[k]
  {
    RankIsPos(h, |h|);
    RankIsPos(h, k);
    if Survives(h, k) {
      KeptIffSurvives(h, k);
      LandsAt(Keeping(h), k, |h|);
      AnsweredKept(h, k);
    }
  }

  /** Every place in the output is the rank of a survivor. */
  lemma {:induction false} RankedBy(h: seq<Message>, n: nat, o: nat) returns (k: nat)
    requires n <= |h| && o < Rank(h, n)
    ensures k < n && Survives(h, k) && Rank(h, k) == o
  {
    if o < Rank(h, n - 1) {
      k := RankedBy(h, n - 1, o);
    } else {
      k := n - 1;
    }
  }

  /** So no message of the output is empty of text and calls, unless it was plain or a result in the input. */
  lemma NothingEmptyIsMade(h: seq<Message>, o: nat) returns (k: nat)
    requires o < |Sanitized(h)|
    ensures k < |h| && Rank(h, k) == o
    ensures Sanitized(h)[o] == h[k] || (BearsCalls(h[k]) && Sanitized(h)[o].content == h[k].content)
    ensures BearsCalls(h[k]) ==> Sanitized(h)[o].content != "" || Sanitized(h)[o].calls != []
  {
    OnlySurvivors(h, 0);
    k := RankedBy(h, |h|, o);
    OnlySurvivors(h, k);
  }
}
