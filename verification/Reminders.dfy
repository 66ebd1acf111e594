/** internal/core/message.go, stripSystemReminders: peeling the reminders off the end of a user message. */
module Reminders {
  import opened Text

  const OPEN := "<system-reminder"
  const CLOSE := "</system-reminder>"

  /** The four characters the loop trims; the final trim takes every white space. */
  predicate IsBlank(c: char) {
    c == ' ' || c == '\t' || c == '\r' || c == '\n'
  }

  function TrimBlanks(s: string): string {
    if s != "" && IsBlank(s[|s| - 1]) then TrimBlanks(s[..|s| - 1]) else s
  }

  predicate HasSuffix(s: string, t: string) {
    |t| <= |s| && s[|s| - |t|..] == t
  }

  predicate Occurs(s: string, t: string, i: nat) {
    i + |t| <= |s| && s[i..i + |t|] == t
  }

  /** The last position up to `n` where `t` occurs, or -1. */
  function Latest(s: string, t: string, n: nat): (i: int)
    ensures -1 <= i <= n && (i >= 0 ==> Occurs(s, t, i))
    ensures forall j :: i < j <= n ==> !Occurs(s, t, j)
  {
    if Occurs(s, t, n) then n else if n == 0 then -1 else Latest(s, t, n - 1)
  }

  function LastIndex(s: string, t: string): int {
    Latest(s, t, |s|)
  }

  /** Whether the loop would cut this content. */
  predicate Peelable(content: string) {
    HasSuffix(TrimBlanks(content), CLOSE) && LastIndex(TrimBlanks(content), OPEN) >= 0
  }

  lemma {:induction false} TrimBlanksIsPrefix(s: string)
    ensures TrimBlanks(s) <= s
  {
    if s != "" && IsBlank(s[|s| - 1]) {
      TrimBlanksIsPrefix(s[..|s| - 1]);
    }
  }

  function Cut(content: string): (cut: string)
    requires Peelable(content)
    ensures |cut| < |content| && cut <= content
  {
    TrimBlanksIsPrefix(content);
    var trimmed := TrimBlanks(content);
    trimmed[..LastIndex(trimmed, OPEN)]
  }

  function Peeled(content: string): string
    decreases |content|
  {
    if Peelable(content) then Peeled(Cut(content)) else content
  }

  function Strip(content: string): string {
    Trim(Peeled(content))
  }

  method StripSystemReminders(text: string) returns (stripped: string)
    ensures stripped == Strip(text)
  {
    var content := text;
    while true
      invariant Peeled(content) == Peeled(text)
      decreases |content|
    {
      var trimmed := TrimBlanks(content);
      if !HasSuffix(trimmed, CLOSE) {
        break;
      }
      var open := LastIndex(trimmed, OPEN);
      if open < 0 {
        break;
      }
      assert Peelable(content) && Cut(content) == trimmed[..open];
      content := trimmed[..open];
    }
    stripped := Trim(content);
  }

  // ---------------------------------------------------------------------------
  // Appending reminders.

  predicate Blanks(s: string) {
    forall i :: 0 <= i < |s| ==> IsBlank(s[i])
  }

  ghost predicate Mentions(s: string, t: string) {
    exists i: nat :: Occurs(s, t, i)
  }

  /** A reminder: what separates it from the text before, and everything between its tags' fixed parts. */
  datatype Reminder = Reminder(gap: string, body: string)

  ghost predicate Plain(r: Reminder) {
    Blanks(r.gap) && !Mentions(r.body, OPEN)
  }

  function Block(r: Reminder): string {
    OPEN + r.body + CLOSE
  }

  function Attached(text: string, rs: seq<Reminder>): string
    decreases |rs|
  {
    if rs == [] then text else Attached(text, rs[..|rs| - 1]) + rs[|rs| - 1].gap + Block(rs[|rs| - 1])
  }

  lemma OnlyFirstIsAngle(k: nat)
    requires 0 < k < |OPEN|
    ensures OPEN[k] != '<' && OPEN[0] == '<' && OPEN[1] == 's'
  {
  }

  lemma CloseStarts(k: nat)
    requires k < |CLOSE|
    ensures CLOSE[0] == '<' && CLOSE[1] == '/' && (k > 0 ==> CLOSE[k] != '<')
  {
  }

  lemma OccursAt(s: string, t: string, i: nat, k: nat)
    requires Occurs(s, t, i) && k < |t|
    ensures s[i + k] == t[k]
  {
    assert s[i..i + |t|][k] == t[k];
  }

  /** Inside a block the opening tag occurs at its start only, even where the body touches the closing tag. */
  lemma OpensOnce(body: string, k: nat)
    requires !Mentions(body, OPEN) && 0 < k
    ensures !Occurs(OPEN + body + CLOSE, OPEN, k)
  {
    var b := OPEN + body + CLOSE;
    if Occurs(b, OPEN, k) {
      OccursAt(b, OPEN, k, 0);
      if k < |OPEN| {
        OnlyFirstIsAngle(k);
      } else if k < |OPEN| + |body| {
        OpensInBody(body, k - |OPEN|);
      } else {
        OccursAt(b, OPEN, k, 1);
        OpensInClose(body, k - |OPEN| - |body|);
      }
    }
  }

  lemma OpensWithin(body: string, r: nat)
    requires r + |OPEN| <= |body|
    ensures Occurs(OPEN + body + CLOSE, OPEN, |OPEN| + r) <==> Occurs(body, OPEN, r)
  {
    assert (OPEN + body + CLOSE)[|OPEN| + r..|OPEN| + r + |OPEN|] == body[r..r + |OPEN|];
  }

  lemma OpensInBody(body: string, r: nat)
    requires !Mentions(body, OPEN) && r < |body|
    ensures !Occurs(OPEN + body + CLOSE, OPEN, |OPEN| + r)
  {
    var b := OPEN + body + CLOSE;
    if r + |OPEN| <= |body| {
      OpensWithin(body, r);
    } else if Occurs(b, OPEN, |OPEN| + r) {
      var d := |body| - r;
      OccursAt(b, OPEN, |OPEN| + r, d);
      CloseStarts(0);
      OnlyFirstIsAngle(d);
    }
  }

  lemma OpensInClose(body: string, r: nat)
    ensures !Occurs(OPEN + body + CLOSE, OPEN, |OPEN| + |body| + r)
  {
    var b := OPEN + body + CLOSE;
    var k := |OPEN| + |body| + r;
    if Occurs(b, OPEN, k) {
      OccursAt(b, OPEN, k, 0);
      OccursAt(b, OPEN, k, 1);
      CloseStarts(r);
      OnlyFirstIsAngle(1);
    }
  }

  lemma Shifted(a: string, b: string, t: string, k: nat)
    ensures Occurs(a + b, t, |a| + k) <==> Occurs(b, t, k)
  {
    if k + |t| <= |b| {
      assert (a + b)[|a| + k..|a| + k + |t|] == b[k..k + |t|];
    }
  }

  lemma LastIndexOfBlock(before: string, body: string)
    requires !Mentions(body, OPEN)
    ensures LastIndex(before + (OPEN + body + CLOSE), OPEN) == |before|
  {
    var b := OPEN + body + CLOSE;
    var s := before + b;
    Shifted(before, b, OPEN, 0);
    assert b[0..|OPEN|] == OPEN;
    assert Occurs(s, OPEN, |before|);
    forall j | |before| < j <= |s| ensures !Occurs(s, OPEN, j) {
      Shifted(before, b, OPEN, j - |before|);
      OpensOnce(body, j - |before|);
    }
  }

  lemma {:induction false} TrimsBlankTail(s: string, tail: string)
    requires Blanks(tail)
    ensures TrimBlanks(s + tail) == TrimBlanks(s)
    decreases |tail|
  {
    if tail == "" {
      assert s + tail == s;
    } else {
      TrimsBlankTail(s, tail[..|tail| - 1]);
      assert (s + tail)[..|s + tail| - 1] == s + tail[..|tail| - 1];
    }
  }

  lemma EndsClosed(before: string, body: string)
    ensures var s := before + (OPEN + body + CLOSE); HasSuffix(s, CLOSE) && TrimBlanks(s) == s
  {
    var s := before + (OPEN + body + CLOSE);
    assert s[|s| - |CLOSE|..] == CLOSE;
    assert s[|s| - 1] == CLOSE[|CLOSE| - 1] == '>';
  }

  /** One pass takes exactly the last block. */
  lemma CutsLastBlock(before: string, r: Reminder, tail: string)
    requires Plain(r) && Blanks(tail)
    ensures Peelable(before + r.gap + Block(r) + tail) && Cut(before + r.gap + Block(r) + tail) == before + r.gap
  {
    var start := before + r.gap;
    var s := start + (OPEN + r.body + CLOSE);
    assert before + r.gap + Block(r) + tail == s + tail;
    TrimsBlankTail(s, tail);
    EndsClosed(start, r.body);
    LastIndexOfBlock(start, r.body);
  }

  /** The loop peels off all the blocks, whatever their bodies, and goes on with the text and its gap. */
  lemma {:induction false} PeelsAll(text: string, rs: seq<Reminder>, tail: string) returns (rest: string)
    requires (forall i :: 0 <= i < |rs| ==> Plain(rs[i])) && Blanks(tail)
    ensures Blanks(rest) && Peeled(Attached(text, rs) + tail) == Peeled(text + rest)
    decreases |rs|
  {
    if rs == [] {
      rest := tail;
    } else {
      var n := |rs| - 1;
      CutsLastBlock(Attached(text, rs[..n]), rs[n], tail);
      rest := PeelsAll(text, rs[..n], rs[n].gap);
    }
  }

  // ---------------------------------------------------------------------------
  // Stripping undoes appending.

  /** The number of characters that are not white space. */
  function Weight(s: string): nat {
    if s == "" then 0 else Weight(s[..|s| - 1]) + if IsSpace(s[|s| - 1]) then 0 else 1
  }

  lemma {:induction false} WeightOfJoin(a: string, b: string)
    ensures Weight(a + b) == Weight(a) + Weight(b)
    decreases |b|
  {
    if b == "" {
      assert a + b == a;
    } else {
      WeightOfJoin(a, b[..|b| - 1]);
      assert (a + b)[..|a + b| - 1] == a + b[..|b| - 1];
    }
  }

  lemma {:induction false} WeightOfTrimStart(s: string)
    ensures Weight(TrimStart(s)) == Weight(s)
  {
    if s != "" && IsSpace(s[0]) {
      WeightOfTrimStart(s[1..]);
      assert s == [s[0]] + s[1..];
      WeightOfJoin([s[0]], s[1..]);
      assert Weight([s[0]]) == 0;
    }
  }

  lemma {:induction false} WeightOfTrimEnd(s: string)
    ensures Weight(TrimEnd(s)) == Weight(s)
    decreases |s|
  {
    if s != "" && IsSpace(s[|s| - 1]) {
      WeightOfTrimEnd(s[..|s| - 1]);
    }
  }

  lemma WeightOfTrim(s: string)
    ensures Weight(Trim(s)) == Weight(s)
  {
    WeightOfTrimStart(s);
    WeightOfTrimEnd(TrimStart(s));
  }

  /** A cut always takes something visible. */
  lemma CutIsLighter(content: string)
    requires Peelable(content)
    ensures Weight(Cut(content)) < Weight(content)
  {
    TrimBlanksIsPrefix(content);
    var trimmed := TrimBlanks(content);
    var i := LastIndex(trimmed, OPEN);
    var c := content[i];
    OccursAt(trimmed, OPEN, i, 0);
    assert c == '<';
    assert content == Cut(content) + [c] + content[i + 1..];
    WeightOfJoin(Cut(content) + [c], content[i + 1..]);
    WeightOfJoin(Cut(content), [c]);
    assert [c][..0] == "";
    assert Weight([c]) == 1;
  }

  lemma {:induction false} PeelingIsLighter(content: string)
    ensures Weight(Peeled(content)) <= Weight(content)
    ensures Peelable(content) ==> Weight(Peeled(content)) < Weight(content)
    decreases |content|
  {
    if Peelable(content) {
      CutIsLighter(content);
      PeelingIsLighter(Cut(content));
    }
  }

  lemma {:induction false} TrimsSpaceTail(s: string, tail: string)
    requires Blanks(tail)
    ensures TrimEnd(s + tail) == TrimEnd(s)
    decreases |tail|
  {
    if tail == "" {
      assert s + tail == s;
    } else {
      TrimsSpaceTail(s, tail[..|tail| - 1]);
      assert (s + tail)[..|s + tail| - 1] == s + tail[..|tail| - 1];
    }
  }

  lemma {:induction false} TrimStartKeepsTail(s: string, tail: string)
    requires Blanks(tail)
    ensures TrimEnd(TrimStart(s + tail)) == TrimEnd(TrimStart(s))
    decreases |s|
  {
    if s == "" {
      assert s + tail == tail;
      AllBlank(tail);
    } else if IsSpace(s[0]) {
      assert (s + tail)[1..] == s[1..] + tail;
      TrimStartKeepsTail(s[1..], tail);
    } else {
      TrimsSpaceTail(s, tail);
    }
  }

  lemma {:induction false} AllBlank(s: string)
    requires Blanks(s)
    ensures TrimStart(s) == ""
  {
    if s == "" {
    } else {
      assert forall i :: 0 <= i < |s[1..]| ==> s[1..][i] == s[i + 1];
      AllBlank(s[1..]);
    }
  }

  lemma PeelableIgnoresTail(text: string, tail: string)
    requires Blanks(tail)
    ensures Peelable(text + tail) <==> Peelable(text)
  {
    TrimsBlankTail(text, tail);
  }

  /**
   Stripping gives back the trimmed text, under any reminders appended to it, exactly when the text itself is not
   peelable.
   */
  lemma StripUndoesAppendIff(text: string, rs: seq<Reminder>, tail: string)
    requires (forall i :: 0 <= i < |rs| ==> Plain(rs[i])) && Blanks(tail)
    ensures Strip(Attached(text, rs) + tail) == Trim(text) <==> !Peelable(text)
  {
    var rest := PeelsAll(text, rs, tail);
    PeelableIgnoresTail(text, rest);
    TrimStartKeepsTail(text, rest);
    if Peelable(text) {
      PeelingIsLighter(text + rest);
      WeightOfTrim(Peeled(text + rest));
      WeightOfTrim(text);
      WeightOfTrim(text + rest);
    }
  }

  /** In particular whenever the text does not end in a closing tag. */
  lemma OrdinaryTextSurvives(text: string, rs: seq<Reminder>, tail: string)
    requires (forall i :: 0 <= i < |rs| ==> Plain(rs[i])) && Blanks(tail)
    requires !HasSuffix(TrimBlanks(text), CLOSE)
    ensures Strip(Attached(text, rs) + tail) == Trim(text)
  {
    StripUndoesAppendIff(text, rs, tail);
  }

  // ---------------------------------------------------------------------------
  // Stripping twice.

  lemma {:induction false} TrimEndOfStart(s: string)
    ensures TrimStart(TrimEnd(TrimStart(s))) == TrimEnd(TrimStart(s))
  {
    if s != "" && IsSpace(s[0]) {
      TrimEndOfStart(s[1..]);
    } else {
      TrimEndKeepsFirst(s);
    }
  }

  lemma {:induction false} TrimEndKeepsFirst(s: string)
    requires s == "" || !IsSpace(s[0])
    ensures s == "" ==> TrimEnd(s) == ""
    ensures s != "" ==> TrimEnd(s) != "" && TrimEnd(s)[0] == s[0]
    decreases |s|
  {
    if s != "" && IsSpace(s[|s| - 1]) {
      TrimEndKeepsFirst(s[..|s| - 1]);
    }
  }

  lemma {:induction false} TrimEndTwice(s: string)
    ensures TrimEnd(TrimEnd(s)) == TrimEnd(s)
    decreases |s|
  {
    if s != "" && IsSpace(s[|s| - 1]) {
      TrimEndTwice(s[..|s| - 1]);
    }
  }

  lemma TrimTwice(s: string)
    ensures Trim(Trim(s)) == Trim(s)
  {
    TrimEndOfStart(s);
    TrimEndTwice(TrimStart(s));
  }

  lemma StripAgainIff(content: string)
    ensures Strip(Strip(content)) == Strip(content) <==> !Peelable(Strip(content))
  {
    var s := Strip(content);
    TrimTwice(Peeled(content));
    if Peelable(s) {
      PeelingIsLighter(s);
      WeightOfTrim(Peeled(s));
    }
  }

  lemma {:induction false} BlanksTrimmed(s: string) returns (tail: string)
    ensures Blanks(tail) && s == TrimBlanks(s) + tail
    decreases |s|
  {
    if s == "" || !IsBlank(s[|s| - 1]) {
      tail := "";
      assert s == TrimBlanks(s) + tail;
    } else {
      var front, last := s[..|s| - 1], s[|s| - 1];
      var rest := BlanksTrimmed(front);
      tail := rest + [last];
      assert s == front + [last] == TrimBlanks(front) + rest + [last];
    }
  }

  /** From the last opening tag to the final closing tag there is one block. */
  lemma TagsApart(s: string, i: nat)
    requires HasSuffix(s, CLOSE) && Occurs(s, OPEN, i)
    ensures i + |OPEN| <= |s| - |CLOSE|
  {
    var j := |s| - |CLOSE|;
    assert s[j..j + |CLOSE|] == s[j..];
    OccursAt(s, OPEN, i, 0);
    if j < i {
      OccursAt(s, CLOSE, j, i - j);
      CloseStarts(i - j);
    } else if j == i {
      OccursAt(s, OPEN, i, 1);
      OccursAt(s, CLOSE, j, 1);
      CloseStarts(1);
    } else if j < i + |OPEN| {
      OccursAt(s, OPEN, i, j - i);
      OccursAt(s, CLOSE, j, 0);
      OnlyFirstIsAngle(j - i);
    }
  }

  lemma Between(s: string, i: nat, open: string, close: string)
    requires Occurs(s, open, i) && HasSuffix(s, close) && i + |open| <= |s| - |close|
    ensures s == s[..i] + (open + s[i + |open|..|s| - |close|] + close)
  {
    assert s[..|s| - |close|] + s[|s| - |close|..] == s;
  }

  lemma NoneInside(s: string, before: string, body: string)
    requires s == before + (OPEN + body + CLOSE) && LastIndex(s, OPEN) == |before|
    ensures !Mentions(body, OPEN)
  {
    forall k: nat ensures !Occurs(body, OPEN, k) {
      if k + |OPEN| <= |body| {
        OpensWithin(body, k);
        Shifted(before, OPEN + body + CLOSE, OPEN, |OPEN| + k);
      }
    }
  }

  lemma LastBlock(content: string) returns (body: string, tail: string)
    requires Peelable(content)
    ensures content == Cut(content) + (OPEN + body + CLOSE) + tail && !Mentions(body, OPEN) && Blanks(tail)
  {
    tail := BlanksTrimmed(content);
    var s := TrimBlanks(content);
    var i := LastIndex(s, OPEN);
    TagsApart(s, i);
    Between(s, i, OPEN, CLOSE);
    body := s[i + |OPEN|..|s| - |CLOSE|];
    NoneInside(s, s[..i], body);
  }

  /** Every content is a text that cannot be peeled, with reminders appended and blanks after them. */
  lemma {:induction false} EveryContent(content: string) returns (text: string, rs: seq<Reminder>, tail: string)
    ensures content == Attached(text, rs) + tail && !Peelable(text)
    ensures (forall i :: 0 <= i < |rs| ==> Plain(rs[i])) && Blanks(tail)
    decreases |content|
  {
    if !Peelable(content) {
      text, rs, tail := content, [], "";
    } else {
      var body, blanks := LastBlock(content);
      var gap;
      text, rs, gap := EveryContent(Cut(content));
      rs, tail := rs + [Reminder(gap, body)], blanks;
      assert rs[..|rs| - 1] + [Reminder(gap, body)] == rs;
    }
  }

  /**
   On such a content, which is any content, stripping twice is stripping once exactly when the text cannot be peeled
   when trimmed either.
   */
  lemma IdempotentIff(text: string, rs: seq<Reminder>, tail: string)
    requires (forall i :: 0 <= i < |rs| ==> Plain(rs[i])) && Blanks(tail) && !Peelable(text)
    ensures var c := Attached(text, rs) + tail;
      Strip(Strip(c)) == Strip(c) <==> !Peelable(Trim(text))
  {
    StripUndoesAppendIff(text, rs, tail);
    StripAgainIff(Attached(text, rs) + tail);
  }

  predicate FourBlanksOnly(s: string) {
    forall i :: 0 <= i < |s| && IsSpace(s[i]) ==> IsBlank(s[i])
  }

  lemma {:induction false} PeeledIsPrefix(content: string)
    ensures Peeled(content) <= content && !Peelable(Peeled(content))
    decreases |content|
  {
    if Peelable(content) {
      PeeledIsPrefix(Cut(content));
    }
  }

  lemma {:induction false} SameTrims(s: string)
    requires FourBlanksOnly(s)
    ensures TrimBlanks(s) == TrimEnd(s)
    decreases |s|
  {
    if s == "" {
    } else {
      SameTrims(s[..|s| - 1]);
    }
  }

  lemma {:induction false} TrimStartIsSuffix(s: string) returns (k: nat)
    ensures k <= |s| && TrimStart(s) == s[k..]
  {
    if s != "" && IsSpace(s[0]) {
      k := TrimStartIsSuffix(s[1..]);
      k := k + 1;
    } else {
      k := 0;
    }
  }

  lemma SuffixKeepsTags(u: string, k: nat)
    requires k <= |u| && HasSuffix(u[k..], CLOSE) && LastIndex(u[k..], OPEN) >= 0
    ensures HasSuffix(u, CLOSE) && LastIndex(u, OPEN) >= 0
  {
    var v := u[k..];
    assert u[|u| - |CLOSE|..] == v[|v| - |CLOSE|..];
    var i := LastIndex(v, OPEN);
    assert u == u[..k] + v;
    Shifted(u[..k], v, OPEN, i);
    assert Occurs(u, OPEN, k + i);
  }

  /** What is peelable without some of its beginning is peelable with it. */
  lemma SuffixIsPeelable(s: string, k: nat)
    requires k <= |s| && Peelable(s[k..])
    ensures Peelable(s)
  {
    TrimBlanksOfSuffix(s, k);
    SuffixKeepsTags(TrimBlanks(s), k);
  }

  lemma {:induction false} TrimBlanksOfSuffix(s: string, k: nat)
    requires k <= |s| && TrimBlanks(s[k..]) != ""
    ensures k <= |TrimBlanks(s)| && TrimBlanks(s)[k..] == TrimBlanks(s[k..])
    decreases |s|
  {
    var t := s[k..];
    assert t != "";
    assert t[|t| - 1] == s[|s| - 1];
    if IsBlank(s[|s| - 1]) {
      assert s[..|s| - 1][k..] == t[..|t| - 1];
      TrimBlanksOfSuffix(s[..|s| - 1], k);
    }
  }

  /** Over the four characters the loop trims, stripping is idempotent. */
  lemma IdempotentOverBlanks(content: string)
    requires FourBlanksOnly(content)
    ensures Strip(Strip(content)) == Strip(content)
  {
    PeeledIsPrefix(content);
    var p := Peeled(content);
    var s := Strip(content);
    assert forall i :: 0 <= i < |p| ==> p[i] == content[i];
    var k := TrimStartIsSuffix(p);
    var q := p[k..];
    assert FourBlanksOnly(q);
    SameTrims(q);
    assert s == TrimBlanks(q);
    TrimBlanksTwice(q);
    if Peelable(s) {
      assert Peelable(q);
      SuffixIsPeelable(p, k);
    }
    StripAgainIff(content);
  }

  lemma {:induction false} TrimBlanksTwice(s: string)
    ensures TrimBlanks(TrimBlanks(s)) == TrimBlanks(s)
    decreases |s|
  {
    if s != "" && IsBlank(s[|s| - 1]) {
      TrimBlanksTwice(s[..|s| - 1]);
    }
  }

  const VERTICAL_TAB := 11 as char

  lemma BlockEnds(body: string)
    ensures var b := OPEN + body + CLOSE; b != "" && b[0] == '<' && b[|b| - 1] == '>'
  {
  }

  lemma TabIsTrimmed(b: string)
    requires b != "" && b[0] == '<' && b[|b| - 1] == '>'
    ensures Trim(b + [VERTICAL_TAB]) == b
  {
    var s := b + [VERTICAL_TAB];
    assert s[0] == '<' && !IsSpace(s[0]);
    assert TrimStart(s) == s;
    assert IsSpace(s[|s| - 1]) && s[..|s| - 1] == b;
    assert TrimEnd(b) == b;
  }

  lemma TabShields(b: string)
    ensures !Peelable(b + [VERTICAL_TAB])
  {
    var s := b + [VERTICAL_TAB];
    if |CLOSE| <= |s| {
      assert s[|s| - |CLOSE|..][|CLOSE| - 1] == VERTICAL_TAB;
      assert CLOSE[|CLOSE| - 1] == '>';
    }
  }

  lemma ShieldedStays(b: string)
    requires b != "" && b[0] == '<' && b[|b| - 1] == '>'
    ensures Strip(b + [VERTICAL_TAB]) == b
  {
    TabShields(b);
    TabIsTrimmed(b);
  }

  lemma LoneBlockGoes(r: Reminder)
    requires Plain(r) && r.gap == ""
    ensures Strip(Block(r)) == ""
  {
    CutsLastBlock("", r, "");
    assert "" + r.gap == "" && "" + r.gap + Block(r) + "" == Block(r);
    NothingToPeel();
  }

  lemma NothingToPeel()
    ensures Peeled("") == "" && Trim("") == ""
  {
  }

  /**
   But a vertical tab after a reminder shields it from the loop and not from the final trim: only a second pass takes
   it.
   */
  lemma NotIdempotentAfterVerticalTab(body: string)
    requires !Mentions(body, OPEN)
    ensures var b := Block(Reminder("", body));
      Strip(b + [VERTICAL_TAB]) == b && Strip(Strip(b + [VERTICAL_TAB])) == "" != b
  {
    BlockEnds(body);
    ShieldedStays(Block(Reminder("", body)));
    LoneBlockGoes(Reminder("", body));
  }
}
