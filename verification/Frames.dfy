/** Docker's framed stream: whole frames to lines, and the same lines however the stream is cut. */
module Frames {
  import opened Bytes

  const HEADER: nat := 8

  datatype Line = Line(text: seq<byte>, stderr: bool)

  /** readUInt32BE. */
  function ReadLength(b: seq<byte>, at: nat): nat
    requires at + 4 <= |b|
  {
    var b0: int, b1: int, b2: int, b3: int := b[at], b[at + 1], b[at + 2], b[at + 3];
    ((b0 * 256 + b1) * 256 + b2) * 256 + b3
  }

  /** split(/\r?\n/). */
  function SplitLines(s: seq<byte>): (lines: seq<seq<byte>>)
    ensures |lines| >= 1
  {
    var at := IndexOf(s, LF, 0);
    if at == -1 then [s]
    else [if at > 0 && s[at - 1] == CR then s[..at - 1] else s[..at]] + SplitLines(s[at + 1..])
  }

  function Kept(lines: seq<seq<byte>>, stderr: bool): seq<Line> {
    if lines == [] then []
    else (if lines[0] == [] then [] else [Line(lines[0], stderr)]) + Kept(lines[1..], stderr)
  }

  function LinesOf(payload: seq<byte>, stderr: bool): seq<Line> { Kept(SplitLines(payload), stderr) }

  /** Whether the bytes begin with a whole frame. */
  predicate HasFrame(b: seq<byte>) { |b| >= HEADER && |b| >= HEADER + ReadLength(b, 4) }

  function FrameEnd(b: seq<byte>): (end: nat)
    requires HasFrame(b)
    ensures HEADER <= end <= |b|
  {
    HEADER + ReadLength(b, 4)
  }

  datatype Read = Read(lines: seq<Line>, rest: seq<byte>)

  /** The lines of the whole frames at the front, and the bytes after the last of them. */
  function Demux(b: seq<byte>): (r: Read)
    ensures |r.rest| <= |b|
    ensures !HasFrame(r.rest)
    decreases |b|
  {
    if !HasFrame(b) then Read([], b)
    else
      var next := Demux(b[FrameEnd(b)..]);
      Read(LinesOf(b[HEADER..FrameEnd(b)], b[0] == 2) + next.lines, next.rest)
  }

  lemma {:induction false} KeptPush(lines: seq<seq<byte>>, line: seq<byte>, stderr: bool)
    ensures Kept(lines + [line], stderr) == Kept(lines, stderr) + (if line == [] then [] else [Line(line, stderr)])
  {
    if lines == [] {
      assert (lines + [line])[1..] == [];
    } else {
      assert (lines + [line])[1..] == lines[1..] + [line];
      KeptPush(lines[1..], line, stderr);
    }
  }

  /** The lines of one payload, the empty ones left out. */
  method EmitLines(payload: seq<byte>, stderr: bool) returns (lines: seq<Line>)
    ensures lines == LinesOf(payload, stderr)
  {
    hide SplitLines, Kept;
    var parts := SplitLines(payload);
    lines := [];
    var i := 0;
    assert Kept(parts[..0], stderr) == [] by { KeptNothing(stderr); }
    while i < |parts|
      invariant 0 <= i <= |parts|
      invariant lines == Kept(parts[..i], stderr)
    {
      assert parts[..i + 1] == parts[..i] + [parts[i]];
      KeptPush(parts[..i], parts[i], stderr);
      if |parts[i]| > 0 { lines := lines + [Line(parts[i], stderr)]; }
      i := i + 1;
    }
    assert parts[..i] == parts;
  }

  lemma KeptNothing(stderr: bool)
    ensures Kept([], stderr) == []
  {
  }

  lemma LengthAt(b: seq<byte>, at: nat)
    requires at + HEADER <= |b|
    ensures ReadLength(b[at..], 4) == ReadLength(b, at + 4)
  {
  }

  /** One frame of the loop. */
  lemma DemuxStep(b: seq<byte>, offset: nat)
    requires offset + HEADER <= |b|
    ensures var end := offset + HEADER + ReadLength(b, offset + 4);
      if end > |b| then !HasFrame(b[offset..])
      else Demux(b[offset..]) == Read(LinesOf(b[offset + HEADER..end], b[offset] == 2) + Demux(b[end..]).lines, Demux(b[end..]).rest)
  {
    hide LinesOf, ReadLength;
    LengthAt(b, offset);
    var end, left := offset + HEADER + ReadLength(b, offset + 4), b[offset..];
    if end <= |b| {
      assert b[offset + HEADER..end] == left[HEADER..FrameEnd(left)] && b[end..] == left[FrameEnd(left)..];
    }
  }

  method Demultiplex(chunk: seq<byte>) returns (lines: seq<Line>, offset: nat)
    ensures offset <= |chunk|
    ensures Demux(chunk) == Read(lines, chunk[offset..])
  {
    hide LinesOf, Demux, ReadLength;
    lines, offset := [], 0;
    assert chunk[0..] == chunk;
    while offset + HEADER <= |chunk|
      invariant offset <= |chunk|
      invariant Demux(chunk) == Read(lines + Demux(chunk[offset..]).lines, Demux(chunk[offset..]).rest)
      decreases |chunk| - offset
    {
      DemuxStep(chunk, offset);
      var stderr := chunk[offset] == 2;
      var length := ReadLength(chunk, offset + 4);
      var start := offset + HEADER;
      var end := start + length;
      if end > |chunk| { break; }
      var more := EmitLines(chunk[start..end], stderr);
      lines := lines + more;
      offset := end;
    }
    NoFrameLeft(chunk[offset..]);
  }

  lemma NoFrameLeft(b: seq<byte>)
    requires !HasFrame(b)
    ensures Demux(b) == Read([], b)
  {
  }

  /** A frame that is there is there with more bytes behind it. */
  lemma FrameWithMore(b: seq<byte>, more: seq<byte>)
    requires HasFrame(b)
    ensures HasFrame(b + more) && FrameEnd(b + more) == FrameEnd(b)
    ensures (b + more)[HEADER..FrameEnd(b)] == b[HEADER..FrameEnd(b)]
    ensures (b + more)[FrameEnd(b)..] == b[FrameEnd(b)..] + more
  {
    assert ReadLength(b + more, 4) == ReadLength(b, 4);
  }

  lemma DemuxOne(b: seq<byte>)
    requires HasFrame(b)
    ensures var next := Demux(b[FrameEnd(b)..]);
      Demux(b) == Read(LinesOf(b[HEADER..FrameEnd(b)], b[0] == 2) + next.lines, next.rest)
  {
    hide LinesOf, ReadLength, HasFrame;
  }

  /** Reading in two steps, with what is left of the first in front of the second, is reading at once. */
  lemma {:induction false} DemuxWithMore(b: seq<byte>, more: seq<byte>)
    ensures Demux(b + more) == Read(Demux(b).lines + Demux(Demux(b).rest + more).lines, Demux(Demux(b).rest + more).rest)
    decreases |b|
  {
    hide LinesOf, ReadLength, HasFrame, Demux;
    if HasFrame(b) {
      FrameWithMore(b, more);
      DemuxOne(b);
      DemuxOne(b + more);
      DemuxWithMore(b[FrameEnd(b)..], more);
    } else {
      NoFrameLeft(b);
    }
  }

  class FrameReader {
    var pending: seq<byte>
    var lines: seq<Line>

    constructor ()
      ensures pending == [] && lines == []
    {
      pending, lines := [], [];
    }

    method Take(chunk: seq<byte>)
      modifies this
      ensures lines == old(lines) + Demux(old(pending) + chunk).lines
      ensures pending == Demux(old(pending) + chunk).rest
    {
      var buffer := pending + chunk;
      var more, offset := Demultiplex(buffer);
      lines := lines + more;
      pending := buffer[offset..];
    }

    /** Any stream, cut anywhere: the lines of the whole, and exactly its trailing partial frame held back. */
    method TakeAll(chunks: seq<seq<byte>>)
      requires pending == [] && lines == []
      modifies this
      ensures lines == Demux(Concat(chunks)).lines
      ensures pending == Demux(Concat(chunks)).rest && !HasFrame(pending)
    {
      hide Demux;
      NothingToRead();
      var i := 0;
      while i < |chunks|
        invariant 0 <= i <= |chunks|
        invariant Demux(Concat(chunks[..i])) == Read(lines, pending)
      {
        assert chunks[..i + 1] == chunks[..i] + [chunks[i]];
        ConcatPush(chunks[..i], chunks[i]);
        DemuxWithMore(Concat(chunks[..i]), chunks[i]);
        Take(chunks[i]);
        i := i + 1;
      }
      assert chunks[..i] == chunks;
    }
  }

  lemma NothingToRead()
    ensures Demux([]) == Read([], [])
  {
  }

  /* ── A stream of frames that were written ────────────────────────── */

  datatype Frame = Frame(stream: byte, payload: seq<byte>)

  function WriteLength(n: nat): (b: seq<byte>)
    requires n < 0x1_0000_0000
    ensures |b| == 4
  {
    [n / 0x100_0000, n / 0x1_0000 % 256, n / 256 % 256, n % 256]
  }

  predicate Framed(f: Frame) { |f.payload| < 0x1_0000_0000 }

  function WriteFrame(f: Frame): seq<byte>
    requires Framed(f)
  {
    [f.stream, 0, 0, 0] + WriteLength(|f.payload|) + f.payload
  }

  function WriteFrames(frames: seq<Frame>): seq<byte>
    requires forall f :: f in frames ==> Framed(f)
  {
    if frames == [] then [] else WriteFrame(frames[0]) + WriteFrames(frames[1..])
  }

  function FrameLines(frames: seq<Frame>): seq<Line> {
    if frames == [] then [] else LinesOf(frames[0].payload, frames[0].stream == 2) + FrameLines(frames[1..])
  }

  lemma LengthReadsBack(n: nat)
    requires n < 0x1_0000_0000
    ensures ReadLength(WriteLength(n), 0) == n
  {
    assert n / 0x100_0000 == n / 0x1_0000 / 256 && n / 0x1_0000 == n / 256 / 256;
  }

  lemma FrameReadsBack(f: Frame, more: seq<byte>)
    requires Framed(f)
    ensures var b := WriteFrame(f) + more;
      && HasFrame(b) && FrameEnd(b) == |WriteFrame(f)| && b[0] == f.stream
      && b[HEADER..FrameEnd(b)] == f.payload && b[FrameEnd(b)..] == more
  {
    hide WriteLength;
    var b := WriteFrame(f) + more;
    var length := WriteLength(|f.payload|);
    LengthReadsBack(|f.payload|);
    assert b[4] == length[0] && b[5] == length[1] && b[6] == length[2] && b[7] == length[3];
    assert ReadLength(b, 4) == ReadLength(length, 0);
  }

  /** Nothing of a frame that is not whole is read. */
  lemma PartOfAFrame(f: Frame, part: seq<byte>)
    requires Framed(f) && part < WriteFrame(f)
    ensures !HasFrame(part)
  {
    if |part| >= HEADER {
      var b := WriteFrame(f);
      FrameReadsBack(f, []);
      assert b + [] == b;
      assert forall i :: 0 <= i < |part| ==> part[i] == b[i];
      assert ReadLength(part, 4) == ReadLength(b, 4);
    }
  }

  /** A stream of frames that stops anywhere gives the lines of the frames that arrived whole: the first `n`. */
  lemma {:induction false} PrefixReads(frames: seq<Frame>, part: seq<byte>) returns (n: nat)
    requires forall f :: f in frames ==> Framed(f)
    requires part <= WriteFrames(frames)
    ensures n <= |frames| && Demux(part).lines == FrameLines(frames[..n])
    ensures part == WriteFrames(frames) ==> n == |frames|
    decreases |frames|
  {
    hide LinesOf, WriteFrame, HasFrame;
    if frames == [] {
      n := 0;
      NothingToRead();
    } else {
      var first, more := WriteFrame(frames[0]), WriteFrames(frames[1..]);
      assert frames[0] in frames;
      if |part| < |first| {
        n := 0;
        assert part == first[..|part|];
        PartOfAFrame(frames[0], part);
        assert FrameLines(frames[..0]) == [];
      } else {
        var after := part[|first|..];
        assert part == first + after && after == more[..|after|];
        FrameReadsBack(frames[0], after);
        var m := PrefixReads(frames[1..], after);
        n := m + 1;
        assert frames[..n][0] == frames[0] && frames[..n][1..] == frames[1..][..m];
        if part == WriteFrames(frames) {
          assert after == more;
        }
      }
    }
  }

  /* ── What the lines are ──────────────────────────────────────────── */

  /** A text the process closed, with a newline or with a carriage return and a newline. */
  datatype Closed = Closed(text: seq<byte>, withReturn: bool)

  /** Its text holds no newline; and what ends in a carriage return before a plain newline is a text closed with both. */
  predicate IsClosed(c: Closed) {
    LF !in c.text && (!c.withReturn && c.text != [] ==> c.text[|c.text| - 1] != CR)
  }

  predicate AllClosed(texts: seq<Closed>) { forall i :: 0 <= i < |texts| ==> IsClosed(texts[i]) }

  /** Closed texts one after another, and what was not closed yet. */
  function Printed(texts: seq<Closed>, rest: seq<byte>): seq<byte> {
    if texts == [] then rest
    else texts[0].text + (if texts[0].withReturn then [CR, LF] else [LF]) + Printed(texts[1..], rest)
  }

  /** The texts that are not empty, and the rest when it is not. */
  function Spoken(texts: seq<Closed>, rest: seq<byte>, stderr: bool): seq<Line> {
    if texts == [] then (if |rest| > 0 then [Line(rest, stderr)] else [])
    else (if |texts[0].text| > 0 then [Line(texts[0].text, stderr)] else []) + Spoken(texts[1..], rest, stderr)
  }

  lemma NotClosed(rest: seq<byte>, stderr: bool)
    requires LF !in rest
    ensures LinesOf(rest, stderr) == Spoken([], rest, stderr)
  {
    assert SplitLines(rest) == [rest];
    assert Kept([rest][1..], stderr) == [];
  }

  lemma OneClosed(c: Closed, more: seq<byte>)
    requires IsClosed(c)
    ensures SplitLines(c.text + (if c.withReturn then [CR, LF] else [LF]) + more) == [c.text] + SplitLines(more)
  {
    hide SplitLines, IndexOf;
    var raw := if c.withReturn then c.text + [CR] else c.text;
    var all := c.text + (if c.withReturn then [CR, LF] else [LF]) + more;
    assert all == raw + [LF] + more;
    assert all[|raw|] == LF && forall i :: 0 <= i < |raw| ==> all[i] == raw[i];
    assert IndexOf(all, LF, 0) == |raw|;
    SplitsOnce(all);
    assert all[|raw| + 1..] == more && all[..|c.text|] == c.text;
    assert |raw| > 0 ==> all[|raw| - 1] == raw[|raw| - 1];
  }

  lemma SplitsOnce(s: seq<byte>)
    requires IndexOf(s, LF, 0) != -1
    ensures var at := IndexOf(s, LF, 0);
      SplitLines(s) == [if at > 0 && s[at - 1] == CR then s[..at - 1] else s[..at]] + SplitLines(s[at + 1..])
  {
    hide IndexOf;
  }

  lemma {:induction false} LinesAreTheTexts(texts: seq<Closed>, rest: seq<byte>, stderr: bool)
    requires AllClosed(texts) && LF !in rest
    ensures LinesOf(Printed(texts, rest), stderr) == Spoken(texts, rest, stderr)
    decreases |texts|
  {
    hide SplitLines, IsClosed;
    if texts == [] {
      NotClosed(rest, stderr);
    } else {
      LinesAreTheTexts(texts[1..], rest, stderr);
      OneClosed(texts[0], Printed(texts[1..], rest));
      var lines := SplitLines(Printed(texts, rest));
      assert lines[1..] == SplitLines(Printed(texts[1..], rest));
    }
  }

  /** A frame's bytes: its stream, three zeros, the length of its payload with the highest byte first, and the payload. */
  lemma FrameBytes(f: Frame)
    requires Framed(f)
    ensures var n := |f.payload|;
      WriteFrame(f) == [f.stream, 0, 0, 0, n / 16777216, n / 65536 % 256, n / 256 % 256, n % 256] + f.payload
  {
  }

  /** A frame gives the texts its payload closes with a newline, with or without a carriage return before it, and what comes after
      the last of them: each that is not empty, in order, as of its stream. A carriage return anywhere else stays. */
  lemma FrameGivesItsTexts(stream: byte, texts: seq<Closed>, rest: seq<byte>)
    requires AllClosed(texts) && LF !in rest && |Printed(texts, rest)| < 0x1_0000_0000
    ensures var payload := Printed(texts, rest);
      var n := |payload|;
      Demux([stream, 0, 0, 0, n / 16777216, n / 65536 % 256, n / 256 % 256, n % 256] + payload)
      == Read(Spoken(texts, rest, stream == 2), [])
  {
    hide LinesOf, Printed, Spoken, WriteFrame, HasFrame;
    var f := Frame(stream, Printed(texts, rest));
    FrameBytes(f);
    LinesAreTheTexts(texts, rest, stream == 2);
    FrameReadsBack(f, []);
    var b := WriteFrame(f);
    assert b + [] == b;
    NothingToRead();
    DemuxOne(b);
  }

  /** Every payload is such texts and such a rest. */
  lemma {:induction false} EveryPayloadIsTexts(payload: seq<byte>) returns (texts: seq<Closed>, rest: seq<byte>)
    ensures AllClosed(texts) && LF !in rest && Printed(texts, rest) == payload
    decreases |payload|
  {
    var at := IndexOf(payload, LF, 0);
    if at == -1 {
      texts, rest := [], payload;
    } else {
      var more: seq<Closed>;
      more, rest := EveryPayloadIsTexts(payload[at + 1..]);
      var first := if at > 0 && payload[at - 1] == CR then Closed(payload[..at - 1], true) else Closed(payload[..at], false);
      texts := [first] + more;
      assert texts[1..] == more;
      assert first.text + (if first.withReturn then [CR, LF] else [LF]) == payload[..at + 1];
      assert payload[..at + 1] + payload[at + 1..] == payload;
    }
  }
}
