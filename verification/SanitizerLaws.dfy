/** The laws of the sanitizer: where messages go, what survives, and when nothing changes. */
module SanitizerLaws {
  import opened Messages
  import opened Pieces
  import opened Sanitizer

  /** The output position of message `k`, if it is kept. */
  ghost function Pos(h: seq<Message>, k: nat): nat {
    |Join(Keeping(h), k)|
  }

  /** Each kept message is found at its position, in the order of the input. */
  lemma OrderIsKept(h: seq<Message>, j: nat, k: nat)
    requires j < k < |h| && Kept(h, j) != [] && Kept(h, k) != []
    ensures Pos(h, j) < Pos(h, k) < |Sanitized(h)|
    ensures [Sanitized(h)[Pos(h, j)]] == Kept(h, j) && [Sanitized(h)[Pos(h, k)]] == Kept(h, k)
  {
    assert Keeping(h)(j) == Kept(h, j) && Keeping(h)(k) == Kept(h, k);
    LandsAt(Keeping(h), j, k);
    LandsAt(Keeping(h), j, |h|);
    LandsAt(Keeping(h), k, |h|);
  }

  /** Nothing is invented: every output message is what some input message was kept as. */
  lemma NothingIsInvented(h: seq<Message>, o: nat) returns (k: nat)
    requires o < |Sanitized(h)|
    ensures k < |h| && Pos(h, k) == o && Kept(h, k) == [Sanitized(h)[o]]
  {
    k := ComesFrom(Keeping(h), |h|, o);
  }

  lemma {:induction false} AllCallsAnswered(h: seq<Message>, p: int, calls: seq<ToolCall>)
    ensures (forall i :: 0 <= i < |calls| ==> Answered(h, p, calls[i].id)) <==> AnsweredCalls(h, p, calls) == calls
    ensures |AnsweredCalls(h, p, calls)| <= |calls|
  {
    if calls == [] {
    } else {
      AllCallsAnswered(h, p, calls[..|calls| - 1]);
      assert calls == calls[..|calls| - 1] + [calls[|calls| - 1]];
    }
  }

  /** A message is kept as it is exactly when it is well placed. */
  lemma KeptWhole(h: seq<Message>, k: nat)
    requires k < |h|
    ensures Kept(h, k) == [h[k]] <==> WellPlaced(h, k)
  {
    AllCallsAnswered(h, k, h[k].calls);
  }

  /** The histories the sanitizer leaves alone are exactly the well-formed ones. */
  lemma FixedIffClean(h: seq<Message>)
    ensures Sanitized(h) == h <==> Clean(h)
  {
    JoinsTo(Keeping(h), h);
    forall k: nat | k < |h| ensures Keeping(h)(k) == [h[k]] <==> WellPlaced(h, k) {
      KeptWhole(h, k);
    }
  }

  /** A stretch of results is kept as a stretch of results. */
  lemma StretchStays(h: seq<Message>, a: nat, b: nat)
    requires AllResults(h, a, b)
    ensures Pos(h, a) <= Pos(h, b) <= |Sanitized(h)|
    ensures forall o :: Pos(h, a) <= o < Pos(h, b) ==> IsResult(Sanitized(h)[o]) && Among(Sanitized(h)[o], h, a, b)
  {
    JoinGrows(Keeping(h), a, b);
    JoinGrows(Keeping(h), b, |h|);
    forall o | Pos(h, a) <= o < Pos(h, b)
      ensures IsResult(Sanitized(h)[o]) && Among(Sanitized(h)[o], h, a, b)
    {
      var k := StretchElement(h, a, b, o);
    }
  }

  lemma StretchElement(h: seq<Message>, a: nat, b: nat, o: nat) returns (k: nat)
    requires AllResults(h, a, b) && Pos(h, a) <= o < Pos(h, b)
    ensures a <= k < b && o < |Sanitized(h)| && Sanitized(h)[o] == h[k]
  {
    k := ComesFrom(Keeping(h), b, o);
    StartsAfter(Keeping(h), a, k);
    SamePiece(Keeping(h), k, b, |h|, o);
    ResultIsItself(h, k);
  }

  lemma StartsAfter(piece: nat -> seq<Message>, a: nat, k: nat)
    requires |Join(piece, a)| <= |Join(piece, k)| && |piece(k)| == 1
    ensures a <= k
  {
    if k < a {
      JoinGrows(piece, k + 1, a);
    }
  }

  lemma SamePiece(piece: nat -> seq<Message>, k: nat, b: nat, n: nat, o: nat)
    requires k < b <= n && o < |Join(piece, b)| && piece(k) == [Join(piece, b)[o]]
    ensures o < |Join(piece, n)| && piece(k) == [Join(piece, n)[o]]
  {
    JoinGrows(piece, b, n);
  }

  lemma ResultIsItself(h: seq<Message>, k: nat)
    requires k < |h| && IsResult(h[k]) && Keeping(h)(k) != []
    ensures Keeping(h)(k) == [h[k]]
  {
    assert Keeping(h)(k) == Kept(h, k);
  }

  ghost predicate Among(m: Message, h: seq<Message>, lo: int, hi: int) {
    exists s :: 0 <= lo <= s < hi <= |h| && h[s] == m
  }

  lemma FirstAnswerTo(h: seq<Message>, p: nat, k: nat, id: string) returns (first: nat)
    requires InRun(h, p, k) && BearsCalls(h[p]) && HasCall(h[p], id) && ResultId(h[k]) == id
    ensures FirstAnswer(h, p, first) && ResultId(h[first]) == id
    decreases k
  {
    first := k;
    if j :| p < j < k && ResultId(h[j]) == id {
      first := FirstAnswerTo(h, p, j, id);
    }
  }

  /** The caller of an answered call is kept, that call with it. */
  lemma CallerIsKept(h: seq<Message>, p: nat, k: nat)
    requires FirstAnswer(h, p, k)
    ensures Pos(h, p) < |Sanitized(h)|
    ensures BearsCalls(Sanitized(h)[Pos(h, p)]) && HasCall(Sanitized(h)[Pos(h, p)], ResultId(h[k]))
    ensures Pos(h, p + 1) == Pos(h, p) + 1
  {
    var i :| 0 <= i < |h[p].calls| && h[p].calls[i].id == ResultId(h[k]);
    var kept := AnsweredCalls(h, p, h[p].calls);
    assert h[p].calls[i] in kept;
    var d :| 0 <= d < |kept| && kept[d] == h[p].calls[i];
    LandsAt(Keeping(h), p, |h|);
  }

  /** Between a caller and its answer the output holds results of the run only. */
  lemma StretchBetween(h: seq<Message>, p: nat, k: nat)
    requires FirstAnswer(h, p, k) && Pos(h, p + 1) == Pos(h, p) + 1 && Pos(h, p) < Pos(h, k) <= |Sanitized(h)|
    ensures AllResults(Sanitized(h), Pos(h, p) + 1, Pos(h, k))
    ensures forall o :: Pos(h, p) + 1 <= o < Pos(h, k) ==> Among(Sanitized(h)[o], h, p + 1, k)
  {
    StretchStays(h, p + 1, k);
  }

  /** An owned result answers a caller that is itself kept, and stays the first answer to it. */
  lemma OwnedStaysOwned(h: seq<Message>, p: nat, k: nat)
    requires FirstAnswer(h, p, k)
    ensures Pos(h, k) < |Sanitized(h)| && FirstAnswer(Sanitized(h), Pos(h, p), Pos(h, k))
  {
    CallerIsKept(h, p, k);
    ResultIsKept(h, p, k);
    StretchBetween(h, p, k);
    FirstAnswerMoves(h, p, k, Sanitized(h), Pos(h, p), Pos(h, k));
  }

  lemma PairIsKept(h: seq<Message>, p: nat, k: nat)
    requires FirstAnswer(h, p, k)
    ensures p < k < |h| && Keeping(h)(k) == [h[k]] && |Keeping(h)(p)| == 1
  {
    assert Owned(h, k);
    var i :| 0 <= i < |h[p].calls| && h[p].calls[i].id == ResultId(h[k]);
    assert h[p].calls[i] in AnsweredCalls(h, p, h[p].calls);
  }

  lemma ResultIsKept(h: seq<Message>, p: nat, k: nat)
    requires FirstAnswer(h, p, k)
    ensures Pos(h, p) < Pos(h, k) < |Sanitized(h)| && Sanitized(h)[Pos(h, k)] == h[k]
    ensures Pos(h, k + 1) == Pos(h, k) + 1
  {
    PairIsKept(h, p, k);
    LandApart(Keeping(h), p, k, |h|);
  }

  lemma FirstAnswerMoves(h: seq<Message>, p: nat, k: nat, g: seq<Message>, P: nat, K: nat)
    requires FirstAnswer(h, p, k) && P < K < |g| && AllResults(g, P + 1, K)
    requires BearsCalls(g[P]) && HasCall(g[P], ResultId(h[k])) && g[K] == h[k]
    requires forall o :: P + 1 <= o < K ==> Among(g[o], h, p + 1, k)
    ensures FirstAnswer(g, P, K)
  {
    forall j | P < j < K ensures ResultId(g[j]) != ResultId(g[K]) {
      assert Among(g[j], h, p + 1, k);
      var s :| p + 1 <= s < k && g[j] == h[s];
    }
  }

  /** Call `c` of message `k` is in the output with its caller, and its first answer in the run that follows there. */
  ghost predicate CallSurvives(h: seq<Message>, k: nat, c: ToolCall) {
    var out := Sanitized(h);
    && Pos(h, k) < |out| && c in out[Pos(h, k)].calls
    && exists r: nat ::
         && FirstAnswer(h, k, r) && ResultId(h[r]) == c.id
         && Pos(h, r) < |out| && out[Pos(h, r)] == h[r] && FirstAnswer(out, Pos(h, k), Pos(h, r))
  }

  lemma AnsweredCallSurvives(h: seq<Message>, k: nat, c: ToolCall)
    requires k < |h| && BearsCalls(h[k]) && c in h[k].calls && Answered(h, k, c.id)
    ensures CallSurvives(h, k, c)
  {
    var d :| 0 <= d < |h[k].calls| && h[k].calls[d] == c;
    assert HasCall(h[k], c.id);
    var a: nat :| InRun(h, k, a) && ResultId(h[a]) == c.id;
    var r := FirstAnswerTo(h, k, a, c.id);
    OwnedStaysOwned(h, k, r);
    ResultIsKept(h, k, r);
    assert c in AnsweredCalls(h, k, h[k].calls);
    LandsAt(Keeping(h), k, |h|);
  }

  /**
   Nothing valid is lost: every plain message is in the output as it was, every caller with text keeps its text, and
   every call answered in its run is there with its caller and with its first answer in the run after it.
   */
  lemma NothingValidIsLost(h: seq<Message>, k: nat)
    requires k < |h|
    ensures IsPlain(h[k]) ==> Pos(h, k) < |Sanitized(h)| && Sanitized(h)[Pos(h, k)] == h[k]
    ensures BearsCalls(h[k]) && h[k].content != "" ==>
      Pos(h, k) < |Sanitized(h)| && Sanitized(h)[Pos(h, k)].(calls := h[k].calls) == h[k]
    ensures forall c :: BearsCalls(h[k]) && c in h[k].calls && Answered(h, k, c.id) ==> CallSurvives(h, k, c)
  {
    if IsPlain(h[k]) || (BearsCalls(h[k]) && h[k].content != "") {
      LandsAt(Keeping(h), k, |h|);
    }
    forall c | BearsCalls(h[k]) && c in h[k].calls && Answered(h, k, c.id) ensures CallSurvives(h, k, c) {
      AnsweredCallSurvives(h, k, c);
    }
  }

  /** The sanitizer's output is always well formed: each kept call answered, each kept result owned. */
  lemma OutputIsClean(h: seq<Message>)
    ensures Clean(Sanitized(h))
  {
    var out := Sanitized(h);
    forall o: nat | o < |out| ensures WellPlaced(out, o) {
      var k := NothingIsInvented(h, o);
      if IsResult(h[k]) {
        var p :| FirstAnswer(h, p, k);
        OwnedStaysOwned(h, p, k);
      } else if BearsCalls(h[k]) {
        forall i | 0 <= i < |out[o].calls| ensures Answered(out, o, out[o].calls[i].id) {
          KeptCallIsAnswered(h, k, out[o].calls[i]);
        }
      }
    }
  }

  lemma KeptCallIsAnswered(h: seq<Message>, p: nat, c: ToolCall)
    requires p < |h| && BearsCalls(h[p]) && c in AnsweredCalls(h, p, h[p].calls)
    ensures Answered(Sanitized(h), Pos(h, p), c.id)
  {
    var k :| InRun(h, p, k) && ResultId(h[k]) == c.id;
    var d :| 0 <= d < |h[p].calls| && h[p].calls[d] == c;
    assert HasCall(h[p], c.id);
    var first := FirstAnswerTo(h, p, k, c.id);
    OwnedStaysOwned(h, p, first);
    ResultIsKept(h, p, first);
  }

  /** Sanitizing twice is sanitizing once. */
  lemma Idempotent(h: seq<Message>)
    ensures Sanitized(Sanitized(h)) == Sanitized(h)
  {
    OutputIsClean(h);
    FixedIffClean(Sanitized(h));
  }

  // ---------------------------------------------------------------------------
  // How a well-formed chain grows.

  lemma OldFactsStay(h: seq<Message>, t: seq<Message>)
    ensures forall p, k :: k < |h| && InRun(h, p, k) ==> InRun(h + t, p, k)
    ensures forall p, k :: k < |h| && InRun(h + t, p, k) ==> InRun(h, p, k)
    ensures forall p, id :: Answered(h, p, id) ==> Answered(h + t, p, id)
    ensures forall k :: Owned(h, k) ==> Owned(h + t, k)
  {
    forall p, k | k < |h| && InRun(h + t, p, k) ensures InRun(h, p, k) {
      forall j | p + 1 <= j < k + 1 ensures IsResult(h[j]) {
        assert (h + t)[j] == h[j];
      }
    }
    forall p, id | Answered(h, p, id) ensures Answered(h + t, p, id) {
      var k :| InRun(h, p, k) && ResultId(h[k]) == id;
      assert InRun(h + t, p, k);
    }
    forall k | Owned(h, k) ensures Owned(h + t, k) {
      var p :| FirstAnswer(h, p, k);
      assert FirstAnswer(h + t, p, k);
    }
  }

  lemma OldPlacesStay(h: seq<Message>, t: seq<Message>, k: nat)
    requires k < |h| && WellPlaced(h, k)
    ensures WellPlaced(h + t, k)
  {
    OldFactsStay(h, t);
  }

  /** One more message keeps a well-formed chain well formed exactly when it is plain. */
  lemma AppendStaysCleanIffPlain(h: seq<Message>, m: Message)
    requires Clean(h)
    ensures Clean(h + [m]) <==> IsPlain(m)
  {
    var g := h + [m];
    forall k: nat | k < |h| ensures WellPlaced(g, k) {
      assert WellPlaced(h, k);
      OldPlacesStay(h, [m], k);
    }
    assert g[|h|] == m;
    if BearsCalls(m) {
      assert !Answered(g, |h|, g[|h|].calls[0].id);
    }
    if IsResult(m) && Owned(g, |h|) {
      LateAnswerIsSecond(h, m);
    }
    assert WellPlaced(g, |h|) <==> IsPlain(m);
  }

  /** In a well-formed chain every call is already answered, so no further result is a first answer. */
  lemma LateAnswerIsSecond(h: seq<Message>, m: Message)
    requires Clean(h) && IsResult(m)
    ensures !Owned(h + [m], |h|)
  {
    var g := h + [m];
    forall p ensures !FirstAnswer(g, p, |h|) {
      if 0 <= p < |h| && BearsCalls(h[p]) && HasCall(h[p], ResultId(m)) {
        assert WellPlaced(h, p);
        var i :| 0 <= i < |h[p].calls| && h[p].calls[i].id == ResultId(m);
        var k :| InRun(h, p, k) && ResultId(h[k]) == ResultId(m);
        SecondAnswer(h, m, p, k);
      } else if 0 <= p < |h| {
        assert g[p] == h[p];
      }
    }
  }

  lemma SecondAnswer(h: seq<Message>, m: Message, p: nat, k: nat)
    requires InRun(h, p, k) && ResultId(h[k]) == ResultId(m)
    ensures !FirstAnswer(h + [m], p, |h|)
  {
    assert (h + [m])[k] == h[k];
  }

  /** The results `rs` answer the calls `calls`: each call once, and nothing else. */
  ghost predicate AnswersExactly(calls: seq<ToolCall>, rs: seq<Message>) {
    && (forall k :: 0 <= k < |rs| ==> IsResult(rs[k]) && Calls(calls, ResultId(rs[k])))
    && (forall id :: Calls(calls, id) ==> HasAnswer(rs, id))
    && (forall j, k :: 0 <= j < k < |rs| ==> ResultId(rs[j]) != ResultId(rs[k]))
  }

  ghost predicate HasAnswer(rs: seq<Message>, id: string) {
    exists k :: 0 <= k < |rs| && ResultId(rs[k]) == id
  }

  /** A caller followed by exactly one result for each of its calls keeps the chain well formed. */
  lemma AppendTurnStaysClean(h: seq<Message>, caller: Message, rs: seq<Message>)
    requires Clean(h) && BearsCalls(caller) && AnswersExactly(caller.calls, rs)
    ensures Clean(h + [caller] + rs)
  {
    var g, n := h + [caller] + rs, |h|;
    assert g == h + ([caller] + rs);
    forall k: nat | k < |g| ensures WellPlaced(g, k) {
      if k < n {
        assert WellPlaced(h, k);
        OldPlacesStay(h, [caller] + rs, k);
      } else if k == n {
        CallerWellPlaced(h, caller, rs);
      } else {
        TurnResultOwned(h, caller, rs, k);
        assert g[k] == rs[k - n - 1];
      }
    }
  }

  lemma CallerWellPlaced(h: seq<Message>, caller: Message, rs: seq<Message>)
    requires BearsCalls(caller) && AnswersExactly(caller.calls, rs)
    ensures WellPlaced(h + [caller] + rs, |h|)
  {
    var g, n := h + [caller] + rs, |h|;
    forall i | 0 <= i < |caller.calls| ensures Answered(g, n, caller.calls[i].id) {
      assert Calls(caller.calls, caller.calls[i].id);
      var k :| 0 <= k < |rs| && ResultId(rs[k]) == caller.calls[i].id;
      TurnRun(h, caller, rs, n + 1 + k);
      assert g[n + 1 + k] == rs[k];
    }
  }

  lemma TurnRun(h: seq<Message>, caller: Message, rs: seq<Message>, k: int)
    requires AnswersExactly(caller.calls, rs) && |h| < k <= |h| + |rs|
    ensures InRun(h + [caller] + rs, |h|, k)
  {
    var g := h + [caller] + rs;
    forall j | |h| + 1 <= j < k + 1 ensures IsResult(g[j]) {
      assert g[j] == rs[j - |h| - 1];
    }
  }

  lemma TurnResultOwned(h: seq<Message>, caller: Message, rs: seq<Message>, k: int)
    requires BearsCalls(caller) && AnswersExactly(caller.calls, rs) && |h| < k <= |h| + |rs|
    ensures FirstAnswer(h + [caller] + rs, |h|, k)
  {
    var g, n := h + [caller] + rs, |h|;
    TurnRun(h, caller, rs, k);
    var r := k - n - 1;
    assert g[n] == caller && g[k] == rs[r];
    assert HasCall(g[n], ResultId(g[k]));
    forall j | n < j < k ensures ResultId(g[j]) != ResultId(g[k]) {
      assert g[j] == rs[j - n - 1];
    }
  }
}
