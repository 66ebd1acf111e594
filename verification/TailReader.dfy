/** internal/inspector/server.go and stream.go: following a growing transcript file, one line at a time. */
module TailReader {
  newtype byte = b: int | 0 <= b < 256

  const NEWLINE: byte := 10

  /** The complete, non-empty lines read so far, without their newlines, and the line being read. */
  datatype Reading = Reading(lines: seq<seq<byte>>, partial: seq<byte>)

  /** Empty lines are passed over. */
  function WithLine(lines: seq<seq<byte>>, line: seq<byte>): seq<seq<byte>> {
    if line == [] then lines else lines + [line]
  }

  function After(r: Reading, b: byte): Reading {
    if b != NEWLINE then r.(partial := r.partial + [b]) else Reading(WithLine(r.lines, r.partial), [])
  }

  function Read(r: Reading, data: seq<byte>): Reading
    decreases |data|
  {
    if data == [] then r else After(Read(r, data[..|data| - 1]), data[|data| - 1])
  }

  const NOTHING := Reading([], [])

  function Lines(data: seq<byte>): seq<seq<byte>> {
    Read(NOTHING, data).lines
  }

  predicate AtLineStart(data: seq<byte>) {
    data == [] || data[|data| - 1] == NEWLINE
  }

  lemma {:induction false} ReadOn(r: Reading, a: seq<byte>, b: seq<byte>)
    ensures Read(r, a + b) == Read(Read(r, a), b)
    decreases |b|
  {
    if b == [] {
      assert a + b == a;
    } else {
      ReadOn(r, a, b[..|b| - 1]);
      assert (a + b)[..|a + b| - 1] == a + b[..|b| - 1];
    }
  }

  /** Lines already complete do not bear on what follows. */
  lemma {:induction false} ReadAfter(lines: seq<seq<byte>>, partial: seq<byte>, data: seq<byte>)
    ensures var r := Read(Reading([], partial), data);
      Read(Reading(lines, partial), data) == Reading(lines + r.lines, r.partial)
    decreases |data|
  {
    if data == [] {
      assert lines + [] == lines;
    } else {
      ReadAfter(lines, partial, data[..|data| - 1]);
    }
  }

  lemma NoPartialAtLineStart(data: seq<byte>)
    requires AtLineStart(data)
    ensures Read(NOTHING, data).partial == []
  {
  }

  lemma LinesJoin(a: seq<byte>, b: seq<byte>)
    requires AtLineStart(a)
    ensures Lines(a + b) == Lines(a) + Lines(b)
  {
    ReadOn(NOTHING, a, b);
    NoPartialAtLineStart(a);
    ReadAfter(Lines(a), [], b);
  }

  lemma {:induction false} LinesGrow(data: seq<byte>, i: nat)
    requires i <= |data|
    ensures Lines(data[..i]) <= Lines(data)
    decreases |data| - i
  {
    if i == |data| {
      assert data[..i] == data;
    } else {
      LinesGrow(data, i + 1);
      assert data[..i + 1][..i] == data[..i];
    }
  }

  lemma {:induction false} NoNewlineNoLines(r: Reading, data: seq<byte>)
    requires NEWLINE !in data
    ensures Read(r, data) == Reading(r.lines, r.partial + data)
    decreases |data|
  {
    if data == [] {
      assert r.partial + [] == r.partial;
    } else {
      var n := |data| - 1;
      NoNewlineNoLines(r, data[..n]);
      assert r.partial + data == r.partial + data[..n] + [data[n]];
    }
  }

  /** A file written record by record. */
  function Written(records: seq<seq<byte>>): seq<byte>
    decreases |records|
  {
    if records == [] then [] else Written(records[..|records| - 1]) + (records[|records| - 1] + [NEWLINE])
  }

  lemma OneLine(line: seq<byte>)
    requires NEWLINE !in line && line != []
    ensures Lines(line + [NEWLINE]) == [line]
  {
    NoNewlineNoLines(NOTHING, line);
    assert (line + [NEWLINE])[..|line|] == line && [] + line == line;
  }

  lemma OneMoreLine(front: seq<byte>, lines: seq<seq<byte>>, line: seq<byte>)
    requires AtLineStart(front) && Lines(front) == lines && NEWLINE !in line && line != []
    ensures var all := front + (line + [NEWLINE]); Lines(all) == lines + [line] && AtLineStart(all)
  {
    LinesJoin(front, line + [NEWLINE]);
    OneLine(line);
    var all := front + (line + [NEWLINE]);
    assert all[|all| - 1] == NEWLINE;
  }

  /** Reading back what was written line by line gives the records. */
  lemma {:induction false} LinesOfWritten(records: seq<seq<byte>>)
    requires forall i :: 0 <= i < |records| ==> NEWLINE !in records[i] && records[i] != []
    ensures Lines(Written(records)) == records && AtLineStart(Written(records))
    decreases |records|
  {
    if records == [] {
    } else {
      var n := |records| - 1;
      LinesOfWritten(records[..n]);
      OneMoreLine(Written(records[..n]), records[..n], records[n]);
      assert records == records[..n] + [records[n]];
    }
  }

  // ---------------------------------------------------------------------------
  // Reading.

  method LastNewline(b: seq<byte>) returns (i: int)
    ensures -1 <= i < |b|
    ensures i >= 0 ==> b[i] == NEWLINE
    ensures forall j :: i < j < |b| ==> b[j] != NEWLINE
  {
    i := |b| - 1;
    while i >= 0
      invariant -1 <= i < |b| && forall j :: i < j < |b| ==> b[j] != NEWLINE
    {
      if b[i] == NEWLINE {
        return;
      }
      i := i - 1;
    }
  }

  /** The whole lines of what one read returned. */
  predicate WholeLines(got: seq<byte>, data: seq<byte>) {
    && data <= got && AtLineStart(data)
    && forall j :: |data| <= j < |got| ==> got[j] != NEWLINE
  }

  function Whole(got: seq<byte>): (data: seq<byte>)
    ensures WholeLines(got, data)
  {
    if got == [] || got[|got| - 1] == NEWLINE then got else Whole(got[..|got| - 1])
  }

  lemma {:induction false} OnlyWhole(got: seq<byte>, data: seq<byte>)
    requires WholeLines(got, data)
    ensures data == Whole(got)
    decreases |got|
  {
    if data == got {
      assert got[..|got|] == got;
    } else {
      var n := |got| - 1;
      assert got[n] != NEWLINE;
      OnlyWhole(got[..n], data);
    }
  }

  /** Reads past `offset`; the read returns `n` bytes, perhaps fewer than there are. */
  method ReadFromOffset(file: seq<byte>, offset: nat, n: nat) returns (data: seq<byte>, next: nat)
    requires offset < |file| ==> 1 <= n <= |file| - offset
    ensures offset >= |file| ==> data == [] && next == |file|
    ensures offset < |file| ==> WholeLines(file[offset..offset + n], data) && next == offset + |data|
  {
    var end := |file|;
    if offset >= end {
      return [], end;
    }
    var buf := file[offset..offset + n];
    var i := LastNewline(buf);
    if i >= 0 {
      return buf[..i + 1], offset + i + 1;
    }
    return [], offset;
  }

  // ---------------------------------------------------------------------------
  // Sending.

  /** A client that takes so many more lines before it goes away. */
  class Client {
    var lines: seq<seq<byte>>
    var patience: nat

    constructor (patience: nat)
      ensures lines == [] && this.patience == patience
    {
      lines := [];
      this.patience := patience;
    }

    method Send(line: seq<byte>) returns (ok: bool)
      modifies this
      ensures ok <==> old(patience) > 0
      ensures lines == if ok then old(lines) + [line] else old(lines)
      ensures patience == if ok then old(patience) - 1 else 0
    {
      ok := patience > 0;
      if ok {
        lines := lines + [line];
        patience := patience - 1;
      }
    }
  }

  /** Up to byte `i` these whole lines were read, and since `start` the line being read. */
  ghost predicate ReadUpTo(data: seq<byte>, start: nat, i: nat, lines: seq<seq<byte>>) {
    start <= i <= |data| && lines == Lines(data[..i]) && Read(NOTHING, data[..i]) == Reading(lines, data[start..i])
  }

  /** These are the first lines of all, and not the last. */
  ghost predicate CutOff(all: seq<seq<byte>>, lines: seq<seq<byte>>) {
    exists k: nat :: k < |all| && lines == all[..k]
  }

  /** Sends every non-empty line of the data, or an initial part of them if the client goes away. */
  method WriteLines(w: Client, data: seq<byte>) returns (ok: bool)
    modifies w
    ensures ok ==> w.lines == old(w.lines) + Lines(data)
    ensures !ok ==> exists sent :: CutOff(Lines(data), sent) && w.lines == old(w.lines) + sent
  {
    var start := 0;
    ghost var before, sofar := w.lines, [];
    NothingRead(data);
    for i := 0 to |data|
      invariant ReadUpTo(data, start, i, sofar)
      invariant w.lines == before + sofar
    {
      if data[i] != NEWLINE {
        LineGoesOn(data, start, i, sofar);
        continue;
      }
      var line := data[start..i];
      if |line| > 0 {
        var sent := w.Send(line);
        if !sent {
          CutShort(data, start, i, sofar);
          return false;
        }
      }
      LineEnds(data, start, i, sofar);
      sofar := WithLine(sofar, line);
      start := i + 1;
    }
    AllRead(data, start, sofar);
    return true;
  }

  lemma NothingRead(data: seq<byte>)
    ensures ReadUpTo(data, 0, 0, [])
  {
    assert data[..0] == [];
  }

  lemma AllRead(data: seq<byte>, start: nat, lines: seq<seq<byte>>)
    requires ReadUpTo(data, start, |data|, lines)
    ensures lines == Lines(data)
  {
    assert data[..|data|] == data;
  }

  lemma LineGoesOn(data: seq<byte>, start: nat, i: nat, lines: seq<seq<byte>>)
    requires i < |data| && ReadUpTo(data, start, i, lines) && data[i] != NEWLINE
    ensures ReadUpTo(data, start, i + 1, lines)
  {
    assert data[..i + 1][..i] == data[..i];
    assert data[start..i + 1] == data[start..i] + [data[i]];
  }

  lemma LineEnds(data: seq<byte>, start: nat, i: nat, lines: seq<seq<byte>>)
    requires i < |data| && ReadUpTo(data, start, i, lines) && data[i] == NEWLINE
    ensures ReadUpTo(data, i + 1, i + 1, WithLine(lines, data[start..i]))
  {
    assert data[..i + 1][..i] == data[..i];
  }

  /** The lines before one that could not be sent are an initial part of all. */
  lemma CutShort(data: seq<byte>, start: nat, i: nat, lines: seq<seq<byte>>)
    requires i < |data| && ReadUpTo(data, start, i, lines) && data[i] == NEWLINE && start < i
    ensures CutOff(Lines(data), lines)
  {
    LineEnds(data, start, i, lines);
    LinesGrow(data, i + 1);
    Interrupted(Lines(data), lines, data[start..i]);
  }

  lemma Interrupted(all: seq<seq<byte>>, sofar: seq<seq<byte>>, line: seq<byte>)
    requires sofar + [line] <= all
    ensures CutOff(all, sofar)
  {
    assert all[..|sofar|] == (sofar + [line])[..|sofar|] == sofar;
  }

  // ---------------------------------------------------------------------------
  // Polling.

  /** Everything up to the offset, which is at the start of a line, has been sent: each complete line once, in order. */
  ghost predicate Delivered(file: seq<byte>, offset: nat, lines: seq<seq<byte>>) {
    offset <= |file| && AtLineStart(file[..offset]) && lines == Lines(file[..offset])
  }

  /** The writer only appends. */
  lemma AppendKeepsDelivered(file: seq<byte>, more: seq<byte>, offset: nat, lines: seq<seq<byte>>)
    requires Delivered(file, offset, lines)
    ensures Delivered(file + more, offset, lines)
  {
    assert (file + more)[..offset] == file[..offset];
  }

  lemma MoreIsDelivered(file: seq<byte>, offset: nat, data: seq<byte>, lines: seq<seq<byte>>)
    requires Delivered(file, offset, lines) && AtLineStart(data)
    requires offset + |data| <= |file| && file[offset..offset + |data|] == data
    ensures Delivered(file, offset + |data|, lines + Lines(data))
  {
    assert file[..offset + |data|] == file[..offset] + data;
    LinesJoin(file[..offset], data);
    assert data != [] ==> file[..offset + |data|][offset + |data| - 1] == data[|data| - 1];
  }

  /** What has been sent are the first lines of the file as it stands, with nothing missing, repeated or cut. */
  lemma DeliveredIsAPrefix(file: seq<byte>, offset: nat, lines: seq<seq<byte>>)
    requires Delivered(file, offset, lines)
    ensures lines <= Lines(file)
    ensures NEWLINE !in file[offset..] ==> lines == Lines(file)
  {
    assert file == file[..offset] + file[offset..];
    LinesJoin(file[..offset], file[offset..]);
    if NEWLINE !in file[offset..] {
      NoNewlineNoLines(NOTHING, file[offset..]);
    }
  }

  /** What has been sent of a file, and how far it was read. */
  datatype Tail = Tail(file: seq<byte>, offset: nat, lines: seq<seq<byte>>)

  /** The writer appends, or a poll gets some of the new bytes and the client takes all their lines. */
  datatype Happening = Appended(more: seq<byte>) | Polled(n: nat)

  function Next(t: Tail, h: Happening): Tail {
    match h
    case Appended(more) => t.(file := t.file + more)
    case Polled(n) =>
      if t.offset + n > |t.file| then t
      else
        var data := Whole(t.file[t.offset..t.offset + n]);
        Tail(t.file, t.offset + |data|, t.lines + Lines(data))
  }

  lemma PolledIs(file: seq<byte>, offset: nat, n: nat, data: seq<byte>, lines: seq<seq<byte>>)
    requires offset <= |file| && (offset == |file| ==> data == [])
    requires offset < |file| ==> n <= |file| - offset && WholeLines(file[offset..offset + n], data)
    ensures Next(Tail(file, offset, lines), Polled(n)) == Tail(file, offset + |data|, lines + Lines(data))
  {
    assert Lines([]) == [] && lines + [] == lines;
    if offset < |file| {
      OnlyWhole(file[offset..offset + n], data);
    } else if n == 0 {
      assert file[offset..offset] == [] && Whole([]) == [];
    }
  }

  lemma WholeLinesAreThere(file: seq<byte>, offset: nat, n: nat, data: seq<byte>)
    requires offset + n <= |file| && WholeLines(file[offset..offset + n], data)
    ensures offset + |data| <= |file| && file[offset..offset + |data|] == data
    ensures NEWLINE !in file[offset + |data|..offset + n]
  {
    var got := file[offset..offset + n];
    assert got[..|data|] == data;
    forall j | offset + |data| <= j < offset + n ensures file[j] != NEWLINE {
      assert got[j - offset] == file[j];
    }
  }

  /**
   A read of `n` new bytes: what it yields is the next step, keeps the delivery, and completes it if it got them all.
   */
  lemma PollDelivers(file: seq<byte>, offset: nat, n: nat, data: seq<byte>, lines: seq<seq<byte>>)
    requires Delivered(file, offset, lines) && (offset == |file| ==> data == [])
    requires offset < |file| ==> n <= |file| - offset && WholeLines(file[offset..offset + n], data)
    ensures Next(Tail(file, offset, lines), Polled(n)) == Tail(file, offset + |data|, lines + Lines(data))
    ensures Delivered(file, offset + |data|, lines + Lines(data)) && lines + Lines(data) <= Lines(file)
    ensures offset == |file| || n == |file| - offset ==> lines + Lines(data) == Lines(file)
  {
    PolledIs(file, offset, n, data, lines);
    if offset == |file| {
      assert Lines([]) == [] && lines + [] == lines;
    } else {
      WholeLinesAreThere(file, offset, n, data);
      MoreIsDelivered(file, offset, data, lines);
    }
    DeliveredIsAPrefix(file, offset + |data|, lines + Lines(data));
  }

  class Tailer {
    var offset: nat
    const client: Client

    constructor (client: Client)
      ensures offset == 0 && this.client == client
    {
      offset := 0;
      this.client := client;
    }

    /** One poll, which may get only `n` of the new bytes. */
    method SendNewLines(file: seq<byte>, n: nat) returns (ok: bool)
      requires Delivered(file, offset, client.lines) && (offset < |file| ==> 1 <= n <= |file| - offset)
      modifies this, client
      ensures ok ==> Delivered(file, offset, client.lines)
      ensures ok ==> Tail(file, offset, client.lines) == Next(Tail(file, old(offset), old(client.lines)), Polled(n))
      ensures ok && (old(offset) >= |file| || n == |file| - old(offset)) ==> client.lines == Lines(file)
      ensures client.lines <= Lines(file) && old(client.lines) <= client.lines
      ensures !ok ==> offset == old(offset)
    {
      var data, next := ReadFromOffset(file, offset, n);
      PollDelivers(file, offset, n, data, client.lines);
      if |data| == 0 {
        assert data == [] && client.lines + Lines([]) == client.lines;
        return true;
      }
      ok := WriteLines(client, data);
      if !ok {
        return false;
      }
      offset := next;
    }
  }

  // ---------------------------------------------------------------------------
  // Any number of polls of a file that grows in between.

  function Followed(t: Tail, run: seq<Happening>): Tail
    decreases |run|
  {
    if run == [] then t else Next(Followed(t, run[..|run| - 1]), run[|run| - 1])
  }

  lemma NextDelivers(t: Tail, h: Happening)
    requires Delivered(t.file, t.offset, t.lines)
    ensures var u := Next(t, h); Delivered(u.file, u.offset, u.lines)
  {
    match h
    case Appended(more) => AppendKeepsDelivered(t.file, more, t.offset, t.lines);
    case Polled(n) =>
      if t.offset + n <= |t.file| {
        PollDelivers(t.file, t.offset, n, Whole(t.file[t.offset..t.offset + n]), t.lines);
      }
  }

  lemma {:induction false} RunKeepsDelivered(file: seq<byte>, run: seq<Happening>)
    ensures var t := Followed(Tail(file, 0, []), run); Delivered(t.file, t.offset, t.lines)
    decreases |run|
  {
    if run == [] {
      assert file[..0] == [];
    } else {
      RunKeepsDelivered(file, run[..|run| - 1]);
      NextDelivers(Followed(Tail(file, 0, []), run[..|run| - 1]), run[|run| - 1]);
    }
  }

  /** What was sent are the first lines, and one poll that gets all the new bytes sends the rest. */
  predicate AllArrives(t: Tail) {
    && t.offset <= |t.file| && t.lines <= Lines(t.file)
    && Next(t, Polled(|t.file| - t.offset)).lines == Lines(t.file)
  }

  /** A poll that gets all the new bytes has sent every complete line of the file. */
  lemma FullPollSends(file: seq<byte>, offset: nat, lines: seq<seq<byte>>)
    requires Delivered(file, offset, lines)
    ensures Next(Tail(file, offset, lines), Polled(|file| - offset)).lines == Lines(file)
  {
    var n := |file| - offset;
    PollDelivers(file, offset, n, Whole(file[offset..offset + n]), lines);
  }

  lemma FullPollDelivers(t: Tail)
    requires Delivered(t.file, t.offset, t.lines)
    ensures AllArrives(t)
  {
    DeliveredIsAPrefix(t.file, t.offset, t.lines);
    FullPollSends(t.file, t.offset, t.lines);
  }

  /**
   However appends and polls alternate, and however short the reads: what was sent are the lines before the offset,
   each once and in order, and one more poll that gets all the new bytes has sent every complete line of the file.
   */
  lemma RunDelivers(file: seq<byte>, run: seq<Happening>)
    ensures var t := Followed(Tail(file, 0, []), run);
      Delivered(t.file, t.offset, t.lines) && AllArrives(t)
  {
    var t := Followed(Tail(file, 0, []), run);
    RunKeepsDelivered(file, run);
    FullPollDelivers(t);
  }
}
