/**
 internal/app/conv/markdown.go: the boundary of the finished blocks, told from the lines and the code fences they open
 and close. It is the end of the last line that finishes a block, and never lies inside a fence.
 */
module Fences {
  import opened Text
  import opened BlockBoundary

  // ---------------------------------------------------------------------------
  // The complete lines of a text, each with its newline.

  function CompleteLines(content: string): seq<string>
    decreases |content|
  {
    var i := IndexOf(content, '\n');
    if i < 0 then [] else [content[..i + 1]] + CompleteLines(content[i + 1..])
  }

  function Joined(lines: seq<string>): string {
    if lines == [] then "" else Joined(lines[..|lines| - 1]) + lines[|lines| - 1]
  }

  // ---------------------------------------------------------------------------
  // Fences, by what the lines look like.

  /** The line starts, blanks aside, with exactly `n` of the mark, at least three. */
  predicate Opens(line: string, mark: char, n: nat) {
    var t := Trim(line);
    && (mark == '`' || mark == '~') && 3 <= n <= |t|
    && (forall i :: 0 <= i < n ==> t[i] == mark) && (n < |t| ==> t[n] != mark)
  }

  /** The line holds, blanks aside, nothing but the mark, at least `n` times. */
  predicate Closes(line: string, mark: char, n: nat) {
    var t := Trim(line);
    |t| >= n && forall i :: 0 <= i < |t| ==> t[i] == mark
  }

  /** After the first `i` lines a fence is open: some line opened it outside any fence, and none has closed it since. */
  ghost predicate Open(lines: seq<string>, i: nat)
    requires i <= |lines|
    decreases i, 1
  {
    exists o: nat, mark, n: nat :: o < i && HeldOpen(lines, o, mark, n, i)
  }

  ghost predicate HeldOpen(lines: seq<string>, o: nat, mark: char, n: nat, i: nat)
    requires o < i <= |lines|
    decreases i, 0
  {
    !Open(lines, o) && Opens(lines[o], mark, n) && forall j :: o < j < i ==> !Closes(lines[j], mark, n)
  }

  /** Line `k` finishes a block: it is blank and outside any fence, or it closes the open one. */
  ghost predicate Finishes(lines: seq<string>, k: nat)
    requires k < |lines|
  {
    if Open(lines, k) then !Open(lines, k + 1) else Trim(lines[k]) == ""
  }

  lemma {:induction false} RunIs(s: string, c: char)
    ensures var n := RunLength(s, c); (forall i :: 0 <= i < n ==> s[i] == c) && (n < |s| ==> s[n] != c)
  {
    if s != "" && s[0] == c {
      RunIs(s[1..], c);
      var n := RunLength(s, c);
      forall i | 0 <= i < n ensures s[i] == c {
        assert i > 0 ==> s[1..][i - 1] == s[i];
      }
    }
  }

  lemma OpensIs(line: string, mark: char, n: nat)
    ensures Opens(line, mark, n) <==> FenceOpened(line) == Inside(mark, n)
  {
    var t := Trim(line);
    if t != "" {
      RunIs(t, t[0]);
    }
  }

  lemma BlankOpensNothing(line: string)
    requires Trim(line) == ""
    ensures FenceOpened(line).Outside?
  {
  }

  lemma OpenSince(lines: seq<string>, o: nat, mark: char, n: nat, p: nat, i: nat)
    requires o < p <= i <= |lines| && HeldOpen(lines, o, mark, n, i)
    ensures Open(lines, p)
  {
    assert HeldOpen(lines, o, mark, n, p);
  }

  /** At most one fence is open at a time. */
  lemma OneFence(lines: seq<string>, i: nat, o: nat, mark: char, n: nat, p: nat, mark': char, n': nat)
    requires o < i <= |lines| && p < i && HeldOpen(lines, o, mark, n, i) && HeldOpen(lines, p, mark', n', i)
    ensures o == p && mark == mark' && n == n'
  {
    if o < p {
      OpenSince(lines, o, mark, n, p, i);
    } else if p < o {
      OpenSince(lines, p, mark', n', o, i);
    }
    OpensIs(lines[o], mark, n);
    OpensIs(lines[p], mark', n');
  }

  // ---------------------------------------------------------------------------
  // The scan, line by line.

  /** The fence the scan holds after `i` lines is the one that is open there. */
  ghost predicate SameFence(lines: seq<string>, i: nat, fence: Fence)
    requires i <= |lines|
  {
    match fence
    case Outside => !Open(lines, i)
    case Inside(mark, n) => exists o: nat :: o < i && HeldOpen(lines, o, mark, n, i)
  }

  lemma StaysOpen(lines: seq<string>, i: nat, o: nat, mark: char, n: nat)
    requires o < i < |lines| && HeldOpen(lines, o, mark, n, i)
    ensures Open(lines, i)
    ensures Closes(lines[i], mark, n) ==> !Open(lines, i + 1)
    ensures !Closes(lines[i], mark, n) ==> HeldOpen(lines, o, mark, n, i + 1)
  {
    OpenSince(lines, o, mark, n, i, i);
    if Closes(lines[i], mark, n) && Open(lines, i + 1) {
      var p: nat, mark', n': nat :| p < i + 1 && HeldOpen(lines, p, mark', n', i + 1);
      HeldThrough(lines, p, mark', n', i);
      OneFence(lines, i, o, mark, n, p, mark', n');
    }
  }

  /** A fence that is open after line `i`, and was not opened by it, was open before and is not closed by it. */
  lemma HeldThrough(lines: seq<string>, p: nat, mark: char, n: nat, i: nat)
    requires p <= i < |lines| && HeldOpen(lines, p, mark, n, i + 1) && Open(lines, i)
    ensures p < i && HeldOpen(lines, p, mark, n, i) && !Closes(lines[i], mark, n)
  {
  }

  lemma StaysShut(lines: seq<string>, i: nat, mark: char, n: nat)
    requires i < |lines| && !Open(lines, i)
    ensures Opens(lines[i], mark, n) ==> HeldOpen(lines, i, mark, n, i + 1)
    ensures FenceOpened(lines[i]).Outside? ==> !Open(lines, i + 1)
  {
    if FenceOpened(lines[i]).Outside? && Open(lines, i + 1) {
      var p: nat, mark', n': nat :| p < i + 1 && HeldOpen(lines, p, mark', n', i + 1);
      if p < i {
        OpenSince(lines, p, mark', n', i, i + 1);
      } else {
        OpensIs(lines[i], mark', n');
      }
    }
  }

  /** After `i` lines: how far the scan has read, the fence it holds, and the last line that finished a block. */
  ghost predicate Follows(lines: seq<string>, i: nat, s: Scan)
    requires i <= |lines|
  {
    && s.offset == |Joined(lines[..i])| && SameFence(lines, i, s.fence)
    && exists k: nat :: k <= i && IsBoundary(lines, k, i, s.boundary)
  }

  /** Offset `b` ends the first `k` lines, the last of which finishes a block; none of the next ones up to `i` does. */
  ghost predicate IsBoundary(lines: seq<string>, k: nat, i: nat, b: nat)
    requires k <= i <= |lines|
  {
    && b == |Joined(lines[..k])|
    && (k > 0 ==> Finishes(lines, k - 1))
    && forall j :: k <= j < i ==> !Finishes(lines, j)
  }

  lemma OneMoreLine(lines: seq<string>, i: nat)
    requires i < |lines|
    ensures Joined(lines[..i + 1]) == Joined(lines[..i]) + lines[i]
  {
    assert lines[..i + 1][..i] == lines[..i];
  }

  /** One more line: the fence it leaves open, and whether it moves the boundary to its end. */
  lemma FenceAfter(lines: seq<string>, i: nat, s: Scan)
    requires i < |lines| && SameFence(lines, i, s.fence)
    ensures SameFence(lines, i + 1, AfterLine(s, lines[i]).fence)
    ensures AfterLine(s, lines[i]).offset == s.offset + |lines[i]|
    ensures AfterLine(s, lines[i]).boundary == if Finishes(lines, i) then s.offset + |lines[i]| else s.boundary
  {
    match s.fence
    case Inside(mark, n) =>
      var o: nat :| o < i && HeldOpen(lines, o, mark, n, i);
      StaysOpen(lines, i, o, mark, n);
    case Outside =>
      var f := FenceOpened(lines[i]);
      if f.Inside? {
        OpensIs(lines[i], f.mark, f.length);
        StaysShut(lines, i, f.mark, f.length);
      } else {
        StaysShut(lines, i, '~', 3);
      }
  }

  lemma FollowsOneMore(lines: seq<string>, i: nat, s: Scan)
    requires i < |lines| && Follows(lines, i, s)
    ensures Follows(lines, i + 1, AfterLine(s, lines[i]))
  {
    FenceAfter(lines, i, s);
    OneMoreLine(lines, i);
    var k: nat :| k <= i && IsBoundary(lines, k, i, s.boundary);
    if Finishes(lines, i) {
      assert IsBoundary(lines, i + 1, i + 1, AfterLine(s, lines[i]).boundary);
    } else {
      assert IsBoundary(lines, k, i + 1, s.boundary);
    }
  }

  /** Reading on from line `i`. */
  lemma {:induction false} ScanFollows(lines: seq<string>, i: nat, s: Scan, content: string)
    requires i <= |lines| && Follows(lines, i, s) && CompleteLines(content) == lines[i..]
    ensures Follows(lines, |lines|, Scanned(s, content))
    decreases |content|
  {
    var n := IndexOf(content, '\n');
    if n >= 0 {
      assert lines[i..][0] == lines[i] && lines[i..][1..] == lines[i + 1..];
      FollowsOneMore(lines, i, s);
      ScanFollows(lines, i + 1, AfterLine(s, content[..n + 1]), content[n + 1..]);
    }
  }

  lemma NothingRead(lines: seq<string>)
    ensures Follows(lines, 0, START)
  {
    assert lines[..0] == [];
    assert IsBoundary(lines, 0, 0, 0);
  }

  /**
   The boundary is the end of the last line that finishes a block, or the start of the text if none does: the text
   before it consists of whole lines, and no fence is open there.
   */
  lemma BoundaryEndsABlock(content: string) returns (k: nat)
    ensures var lines := CompleteLines(content);
      && k <= |lines| && Joined(lines[..k]) <= content && Boundary(content) == |Joined(lines[..k])|
      && !Open(lines, k)
      && (k > 0 ==> Finishes(lines, k - 1))
      && forall j :: k <= j < |lines| ==> !Finishes(lines, j)
  {
    var lines := CompleteLines(content);
    NothingRead(lines);
    assert lines[0..] == lines;
    ScanFollows(lines, 0, START, content);
    k :| k <= |lines| && IsBoundary(lines, k, |lines|, Boundary(content));
    LinesBegin(content, k);
    FinishedIsShut(lines, k, |lines|, Boundary(content));
  }

  lemma FinishedIsShut(lines: seq<string>, k: nat, i: nat, b: nat)
    requires k <= i <= |lines| && IsBoundary(lines, k, i, b)
    ensures !Open(lines, k) && (k > 0 ==> Finishes(lines, k - 1))
  {
    if k > 0 && !Open(lines, k - 1) {
      BlankOpensNothing(lines[k - 1]);
      StaysShut(lines, k - 1, '~', 3);
    }
  }

  lemma {:induction false} JoinedCons(line: string, lines: seq<string>)
    ensures Joined([line] + lines) == line + Joined(lines)
    decreases |lines|
  {
    if lines == [] {
      assert [line] + lines == [line] && [line][..0] == [];
    } else {
      var before, last := lines[..|lines| - 1], lines[|lines| - 1];
      JoinedCons(line, before);
      assert ([line] + lines)[..|lines|] == [line] + before;
    }
  }

  lemma PrefixAfter(a: string, b: string, c: string)
    requires b <= c
    ensures a + b <= a + c
  {
  }

  lemma FirstLine(content: string, first: string, rest: string)
    requires IndexOf(content, '\n') >= 0
    requires first == content[..IndexOf(content, '\n') + 1] && rest == content[IndexOf(content, '\n') + 1..]
    ensures content == first + rest && CompleteLines(content) == [first] + CompleteLines(rest)
  {
  }

  lemma {:induction false} AllLinesBegin(content: string)
    ensures Joined(CompleteLines(content)) <= content
    decreases |content|
  {
    var n := IndexOf(content, '\n');
    if n >= 0 {
      var first, rest := content[..n + 1], content[n + 1..];
      FirstLine(content, first, rest);
      AllLinesBegin(rest);
      JoinedCons(first, CompleteLines(rest));
      PrefixAfter(first, Joined(CompleteLines(rest)), rest);
    }
  }

  lemma {:induction false} JoinedGrows(lines: seq<string>, k: nat)
    requires k <= |lines|
    ensures Joined(lines[..k]) <= Joined(lines)
    decreases |lines|
  {
    if k == |lines| {
      assert lines[..k] == lines;
    } else {
      JoinedGrows(lines[..|lines| - 1], k);
      assert lines[..|lines| - 1][..k] == lines[..k];
    }
  }

  /** The complete lines are the beginning of the text. */
  lemma LinesBegin(content: string, k: nat)
    requires k <= |CompleteLines(content)|
    ensures Joined(CompleteLines(content)[..k]) <= content
  {
    AllLinesBegin(content);
    JoinedGrows(CompleteLines(content), k);
  }
}
