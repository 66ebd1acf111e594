/** The handful of string functions that the models share. */
module Text {
  predicate Contains(s: string, c: char) {
    exists i :: 0 <= i < |s| && s[i] == c
  }

  /** The first position of `c`, or -1. */
  function IndexOf(s: string, c: char): (i: int)
    ensures -1 <= i < |s|
    ensures i >= 0 ==> s[i] == c
  {
    if s == "" then -1
    else if s[0] == c then 0
    else var i := IndexOf(s[1..], c); if i < 0 then -1 else i + 1
  }

  lemma {:induction false} IndexOfAbsent(s: string, c: char)
    requires !Contains(s, c)
    ensures IndexOf(s, c) == -1
  {
    if s == "" {
    } else {
      assert forall i :: 0 <= i < |s[1..]| ==> s[1..][i] == s[i + 1];
      IndexOfAbsent(s[1..], c);
    }
  }

  lemma {:induction false} IndexOfFirst(a: string, c: char, b: string)
    requires !Contains(a, c)
    ensures IndexOf(a + [c] + b, c) == |a|
  {
    if a == "" {
    } else {
      assert forall i :: 0 <= i < |a[1..]| ==> a[1..][i] == a[i + 1];
      assert (a + [c] + b)[1..] == a[1..] + [c] + b;
      IndexOfFirst(a[1..], c, b);
    }
  }

  function Split(s: string, c: char): (parts: seq<string>)
    ensures parts != []
    decreases |s|
  {
    var i := IndexOf(s, c);
    if i < 0 then [s] else [s[..i]] + Split(s[i + 1..], c)
  }

  predicate IsSpace(c: char) {
    c == ' ' || c == '\t' || c == '\n' || c == '\r' || c as int == 11 || c as int == 12
  }

  function Trim(s: string): string {
    TrimEnd(TrimStart(s))
  }

  function TrimStart(s: string): string {
    if s != "" && IsSpace(s[0]) then TrimStart(s[1..]) else s
  }

  function TrimEnd(s: string): string {
    if s != "" && IsSpace(s[|s| - 1]) then TrimEnd(s[..|s| - 1]) else s
  }

  predicate NoSpace(s: string) {
    forall i :: 0 <= i < |s| ==> !IsSpace(s[i])
  }

  function WordEnd(s: string): (n: nat)
    ensures n <= |s| && NoSpace(s[..n]) && (n < |s| ==> IsSpace(s[n]))
  {
    if s == "" || IsSpace(s[0]) then 0 else
      var n := WordEnd(s[1..]);
      assert s[..n + 1] == [s[0]] + s[1..][..n];
      n + 1
  }

  /** The words between runs of white space. */
  function Fields(s: string): seq<string>
    decreases |s|
  {
    if s == "" then []
    else if IsSpace(s[0]) then Fields(s[1..])
    else var n := WordEnd(s); [s[..n]] + Fields(s[n..])
  }

  lemma {:induction false} WordEndsAtSpace(word: string, rest: string)
    requires NoSpace(word) && (rest == "" || IsSpace(rest[0]))
    ensures WordEnd(word + rest) == |word|
  {
    if word == "" {
      assert word + rest == rest;
    } else {
      assert (word + rest)[1..] == word[1..] + rest;
      WordEndsAtSpace(word[1..], rest);
    }
  }

  /** Putting a word and a space in front adds one field. */
  lemma FieldsCons(word: string, rest: string)
    requires word != "" && NoSpace(word)
    ensures Fields(word + " " + rest) == [word] + Fields(rest)
  {
    var tail := " " + rest;
    assert word + " " + rest == word + tail;
    WordEndsAtSpace(word, tail);
    assert (word + tail)[..|word|] == word && (word + tail)[|word|..] == tail;
    assert tail[1..] == rest;
  }

  lemma FieldsOfWord(word: string)
    requires word != "" && NoSpace(word)
    ensures Fields(word) == [word]
  {
    assert word + "" == word;
    WordEndsAtSpace(word, "");
    assert word[..|word|] == word && word[|word|..] == "";
  }

  // ---------------------------------------------------------------------------
  // Letters.

  function LowerChar(c: char): char {
    if 'A' <= c <= 'Z' then (c as int + 32) as char else c
  }

  function Lower(s: string): string {
    seq(|s|, i requires 0 <= i < |s| => LowerChar(s[i]))
  }

  predicate HasLetter(s: string) {
    exists i :: 0 <= i < |s| && ('a' <= s[i] <= 'z' || 'A' <= s[i] <= 'Z')
  }

  lemma LowerKeeps(s: string)
    requires !HasLetter(s)
    ensures Lower(s) == s
  {
    assert forall i :: 0 <= i < |s| ==> LowerChar(s[i]) == s[i];
  }

  /** Every occurrence of `was`, left to right and without overlap, replaced by `now`. */
  function ReplaceAll(s: string, was: string, now: string): string
    requires was != ""
  {
    if s == "" then ""
    else if was <= s then now + ReplaceAll(s[|was|..], was, now)
    else [s[0]] + ReplaceAll(s[1..], was, now)
  }

  lemma {:induction false} NothingToReplace(s: string, was: string, now: string)
    requires was != "" && 'a' <= was[0] <= 'z' && !HasLetter(s)
    ensures ReplaceAll(s, was, now) == s
  {
    if s == "" {
    } else {
      assert !HasLetter(s[1..]) by {
        assert forall i :: 0 <= i < |s[1..]| ==> s[1..][i] == s[i + 1];
      }
      NothingToReplace(s[1..], was, now);
      assert !(was <= s);
    }
  }
}
