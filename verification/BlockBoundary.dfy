/** internal/app/conv/markdown.go, CompletedBlockBoundary: how much of a growing text is finished markdown blocks. */
module BlockBoundary {
  import opened Text

  /** The length of the run of `c` that starts `s`. */
  function RunLength(s: string, c: char): (n: nat)
    ensures n <= |s|
  {
    if s != "" && s[0] == c then 1 + RunLength(s[1..], c) else 0
  }

  /** An open code fence, or none. */
  datatype Fence = Outside | Inside(mark: char, length: nat)

  function FenceOpened(line: string): Fence {
    var t := Trim(line);
    if |t| < 3 || (t[0] != '`' && t[0] != '~') then Outside
    else
      var n := RunLength(t, t[0]);
      if n < 3 then Outside else Inside(t[0], n)
  }

  predicate ClosesFence(line: string, mark: char, length: nat) {
    var t := Trim(line);
    |t| >= length && forall i :: 0 <= i < |t| ==> t[i] == mark
  }

  /** Where the scan stands: bytes read, the boundary so far, and the fence it is in. */
  datatype Scan = Scan(offset: nat, boundary: nat, fence: Fence)

  const START := Scan(0, 0, Outside)

  /** One line that ends in a newline. */
  function AfterLine(s: Scan, line: string): Scan {
    var offset := s.offset + |line|;
    match s.fence
    case Inside(mark, length) =>
      if ClosesFence(line, mark, length) then Scan(offset, offset, Outside) else s.(offset := offset)
    case Outside =>
      if FenceOpened(line).Inside? then Scan(offset, s.boundary, FenceOpened(line))
      else if Trim(line) == "" then Scan(offset, offset, Outside)
      else s.(offset := offset)
  }

  /** The complete lines of `content`, read from `s` on; what follows the last newline is still streaming. */
  function Scanned(s: Scan, content: string): Scan
    decreases |content|
  {
    var i := IndexOf(content, '\n');
    if i < 0 then s else Scanned(AfterLine(s, content[..i + 1]), content[i + 1..])
  }

  function Boundary(content: string): nat {
    Scanned(START, content).boundary
  }

  method CompletedBlockBoundary(content: string) returns (boundary: nat)
    ensures boundary == Boundary(content)
  {
    var s := START;
    var rest := content;
    while Contains(rest, '\n')
      invariant Scanned(s, rest) == Scanned(START, content)
      decreases |rest|
    {
      NewlineIsFound(rest);
      var i := IndexOf(rest, '\n');
      s := AfterLine(s, rest[..i + 1]);
      rest := rest[i + 1..];
    }
    IndexOfAbsent(rest, '\n');
    boundary := s.boundary;
  }

  lemma {:induction false} NewlineIsFound(s: string)
    requires Contains(s, '\n')
    ensures IndexOf(s, '\n') >= 0
  {
    if s[0] != '\n' {
      var k :| 0 <= k < |s| && s[k] == '\n';
      assert s[1..][k - 1] == '\n';
      NewlineIsFound(s[1..]);
    }
  }

  predicate Sane(s: Scan) {
    s.boundary <= s.offset
  }

  lemma {:induction false} ScanGoesForward(s: Scan, content: string)
    requires Sane(s)
    ensures var t := Scanned(s, content);
      Sane(t) && s.boundary <= t.boundary && t.offset <= s.offset + |content|
    decreases |content|
  {
    var i := IndexOf(content, '\n');
    if i >= 0 {
      ScanGoesForward(AfterLine(s, content[..i + 1]), content[i + 1..]);
    }
  }

  lemma {:induction false} IndexOfStays(a: string, b: string, c: char)
    requires IndexOf(a, c) >= 0
    ensures IndexOf(a + b, c) == IndexOf(a, c)
  {
    if a[0] != c {
      assert (a + b)[1..] == a[1..] + b;
      IndexOfStays(a[1..], b, c);
    }
  }

  lemma {:induction false} ScanOfMore(s: Scan, a: string, b: string)
    requires Sane(s)
    ensures Scanned(s, a).boundary <= Scanned(s, a + b).boundary
    decreases |a|
  {
    var i := IndexOf(a, '\n');
    if i < 0 {
      ScanGoesForward(s, a + b);
    } else {
      IndexOfStays(a, b, '\n');
      assert (a + b)[..i + 1] == a[..i + 1] && (a + b)[i + 1..] == a[i + 1..] + b;
      ScanOfMore(AfterLine(s, a[..i + 1]), a[i + 1..], b);
    }
  }

  /** The boundary lies within the text and never moves back as the text grows. */
  lemma BoundaryOnlyAdvances(a: string, b: string)
    ensures Boundary(a) <= Boundary(a + b)
    ensures Boundary(a) <= |a|
  {
    ScanOfMore(START, a, b);
    ScanGoesForward(START, a);
  }

  predicate LineEnd(s: string, n: nat) {
    n == 0 || (n <= |s| && s[n - 1] == '\n')
  }

  /** And it always lies at the end of a line, so no commit splits one. */
  lemma {:induction false} ScanEndsLines(s: Scan, done: string, content: string)
    requires s.offset == |done| && Sane(s) && LineEnd(done, s.boundary)
    ensures LineEnd(done + content, Scanned(s, content).boundary)
    decreases |content|
  {
    var i := IndexOf(content, '\n');
    if i >= 0 {
      var line := content[..i + 1];
      var t := AfterLine(s, line);
      assert line[i] == '\n' && (done + line)[|done| + i] == '\n';
      assert LineEnd(done + line, t.boundary);
      ScanEndsLines(t, done + line, content[i + 1..]);
      assert done + line + content[i + 1..] == done + content;
    }
  }

  lemma BoundaryEndsALine(content: string)
    ensures LineEnd(content, Boundary(content))
  {
    ScanEndsLines(START, "", content);
    assert "" + content == content;
  }
}
