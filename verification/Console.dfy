/** The followed console: streams that break and are opened again, and every line of the log sent exactly once. */
module Console {
  import opened Bytes
  import opened Frames
  import opened Times

  /* ── What is followed ────────────────────────────────────────────── */

  /** One line of the container's log, as Docker keeps it. */
  datatype Entry = Entry(at: Stamp, text: seq<byte>, stderr: bool)

  function RawLine(at: Stamp, text: seq<byte>): seq<byte>
  {
    DockerText(at) + [SPACE] + text
  }

  predicate Logged(e: Entry) {
    IsStamp(e.at) && LF !in e.text && |RawLine(e.at, e.text)| + 1 < 0x1_0000_0000
  }

  predicate IsLog(log: seq<Entry>) { forall e :: e in log ==> Logged(e) }

  function EntryFrame(e: Entry): (f: Frame)
    requires Logged(e)
    ensures Framed(f)
  {
    Frame(if e.stderr then 2 else 1, RawLine(e.at, e.text) + [LF])
  }

  function FramesOf(log: seq<Entry>): (frames: seq<Frame>)
    requires IsLog(log)
    ensures |frames| == |log|
    ensures forall f :: f in frames ==> Framed(f)
  {
    seq(|log|, i requires 0 <= i < |log| => EntryFrame(log[i]))
  }

  /** The bytes of a stream that sends these entries and does not break. */
  function StreamOf(log: seq<Entry>): seq<byte>
    requires IsLog(log)
  {
    WriteFrames(FramesOf(log))
  }

  /* ── The follower ────────────────────────────────────────────────── */

  /** What onLine is given. */
  datatype Sent = Sent(line: seq<byte>, stderr: bool, at: Option<seq<byte>>)

  /** The cursor, as comparable text, and all that was sent. */
  datatype Following = Following(last: Option<seq<byte>>, out: seq<Sent>)

  const STARTED := Following(None, [])

  function TakeLine(s: Following, line: Line, sent: Option<seq<byte>>): Following {
    match SplitTimestamp(line.text)
    case None => s.(out := s.out + [Sent(line.text, line.stderr, None)])
    case Some(stamped) =>
      var at := OrderedTime(stamped.at);
      if sent.Some? && !Less(sent.value, at) then s
      else Following(Some(at), s.out + [Sent(stamped.line, line.stderr, Some(stamped.at))])
  }

  function TakeLines(s: Following, lines: seq<Line>, sent: Option<seq<byte>>): Following
    decreases |lines|
  {
    if lines == [] then s else TakeLines(TakeLine(s, lines[0], sent), lines[1..], sent)
  }

  lemma {:induction false} TakeLinesSplit(s: Following, a: seq<Line>, b: seq<Line>, sent: Option<seq<byte>>)
    ensures TakeLines(s, a + b, sent) == TakeLines(TakeLines(s, a, sent), b, sent)
    decreases |a|
  {
    hide TakeLine;
    if a == [] {
      assert a + b == b;
    } else {
      assert (a + b)[1..] == a[1..] + b;
      TakeLinesSplit(TakeLine(s, a[0], sent), a[1..], b, sent);
    }
  }

  /** After these streams, each the chunks it came in. */
  function After(streams: seq<seq<seq<byte>>>): Following
    decreases |streams|
  {
    if streams == [] then STARTED
    else
      var before := After(streams[..|streams| - 1]);
      TakeLines(before, Demux(Concat(streams[|streams| - 1])).lines, before.last)
  }

  class Follower {
    var last: Option<seq<byte>>
    var out: seq<Sent>

    function State(): Following
      reads this
    {
      Following(last, out)
    }

    constructor ()
      ensures State() == STARTED
    {
      last, out := None, [];
    }

    method OnLine(raw: Line, sent: Option<seq<byte>>)
      modifies this
      ensures State() == TakeLine(old(State()), raw, sent)
    {
      var stamped := SplitTimestamp(raw.text);
      if stamped.None? {
        out := out + [Sent(raw.text, raw.stderr, None)];
        return;
      }
      var at := OrderedTime(stamped.value.at);
      if sent.Some? && !Less(sent.value, at) { return; }
      last := Some(at);
      out := out + [Sent(stamped.value.line, raw.stderr, Some(stamped.value.at))];
    }

    method OnLines(lines: seq<Line>, sent: Option<seq<byte>>)
      modifies this
      ensures State() == TakeLines(old(State()), lines, sent)
    {
      hide TakeLine;
      var i := 0;
      while i < |lines|
        invariant 0 <= i <= |lines|
        invariant TakeLines(State(), lines[i..], sent) == TakeLines(old(State()), lines, sent)
      {
        assert lines[i..][0] == lines[i] && lines[i..][1..] == lines[i + 1..];
        OnLine(lines[i], sent);
        i := i + 1;
      }
    }

    /** One stream, from its opening to its end, in whatever chunks it comes. */
    method Open(chunks: seq<seq<byte>>)
      modifies this
      ensures State() == TakeLines(old(State()), Demux(Concat(chunks)).lines, old(last))
    {
      hide TakeLines, Demux;
      var sent := last;
      var pending: seq<byte> := [];
      NothingToRead();
      TakeNothing(State(), sent);
      var i := 0;
      while i < |chunks|
        invariant 0 <= i <= |chunks|
        invariant pending == Demux(Concat(chunks[..i])).rest
        invariant State() == TakeLines(old(State()), Demux(Concat(chunks[..i])).lines, sent)
      {
        assert chunks[..i + 1] == chunks[..i] + [chunks[i]];
        ConcatPush(chunks[..i], chunks[i]);
        DemuxWithMore(Concat(chunks[..i]), chunks[i]);
        var buffer := pending + chunks[i];
        var lines, offset := Demultiplex(buffer);
        TakeLinesSplit(old(State()), Demux(Concat(chunks[..i])).lines, lines, sent);
        OnLines(lines, sent);
        pending := buffer[offset..];
        i := i + 1;
      }
      assert chunks[..i] == chunks;
    }

    /** Stream after stream. */
    method Follow(streams: seq<seq<seq<byte>>>)
      requires State() == STARTED
      modifies this
      ensures State() == After(streams)
    {
      hide TakeLines, Demux;
      var i := 0;
      while i < |streams|
        invariant 0 <= i <= |streams|
        invariant State() == After(streams[..i])
      {
        assert streams[..i + 1][..i] == streams[..i];
        Open(streams[i]);
        i := i + 1;
      }
      assert streams[..i] == streams;
    }
  }

  lemma TakeNothing(s: Following, sent: Option<seq<byte>>)
    ensures TakeLines(s, [], sent) == s
  {
  }

  /* ── Lines without a time ────────────────────────────────────────── */

  /** What was sent without a time. */
  function Untimed(out: seq<Sent>): seq<Sent>
    decreases |out|
  {
    if out == [] then [] else Untimed(out[..|out| - 1]) + if out[|out| - 1].at.None? then [out[|out| - 1]] else []
  }

  /** The lines that have none, as they are. */
  function AsTheyAre(lines: seq<Line>): seq<Sent>
    decreases |lines|
  {
    if lines == [] then []
    else (if SplitTimestamp(lines[0].text).None? then [Sent(lines[0].text, lines[0].stderr, None)] else []) + AsTheyAre(lines[1..])
  }

  /** Every line without a time is passed on as it is, in order, whatever has been sent; and none of them moves the cursor. */
  lemma {:induction false} UntimedLinesPass(s: Following, lines: seq<Line>, sent: Option<seq<byte>>)
    ensures Untimed(TakeLines(s, lines, sent).out) == Untimed(s.out) + AsTheyAre(lines)
    ensures (forall i :: 0 <= i < |lines| ==> SplitTimestamp(lines[i].text).None?) ==> TakeLines(s, lines, sent).last == s.last
    decreases |lines|
  {
    hide SplitTimestamp, TakeLine, Untimed;
    if lines != [] {
      var t := TakeLine(s, lines[0], sent);
      UntimedLine(s, lines[0], sent);
      UntimedLinesPass(t, lines[1..], sent);
    }
  }

  lemma UntimedLine(s: Following, line: Line, sent: Option<seq<byte>>)
    ensures var t, untimed := TakeLine(s, line, sent), SplitTimestamp(line.text).None?;
      && Untimed(t.out) == Untimed(s.out) + (if untimed then [Sent(line.text, line.stderr, None)] else [])
      && (untimed ==> t.last == s.last)
  {
    hide SplitTimestamp, OrderedTime, Less;
    var t := TakeLine(s, line, sent);
    if t.out != s.out { assert t.out[..|t.out| - 1] == s.out; }
  }

  /* ── What Docker answers with ────────────────────────────────────── */

  /** The entries of the whole second the text names, and of those after it. */
  function Since(log: seq<Entry>, second: seq<byte>): (rest: seq<Entry>)
    requires IsLog(log)
    ensures IsLog(rest)
  {
    if log == [] then []
    else (if Less(DateText(log[0].at), second) then [] else [log[0]]) + Since(log[1..], second)
  }

  /** What the next stream is asked for: the tail at first, then the second of the last line sent, or all when none was. */
  function Asked(log: seq<Entry>, tail: nat, streams: seq<seq<seq<byte>>>): (asked: seq<Entry>)
    requires IsLog(log) && tail <= |log|
    ensures IsLog(asked)
  {
    if streams == [] then log[tail..]
    else
      var last := After(streams).last;
      if last.None? then log else Since(log, last.value[..Min(19, |last.value|)])
  }

  /** Every stream breaks somewhere: what it brought is a beginning of what it was asked for. */
  ghost predicate Delivered(log: seq<Entry>, tail: nat, streams: seq<seq<seq<byte>>>)
    requires IsLog(log) && tail <= |log|
    decreases |streams|
  {
    streams != [] ==>
      var before := streams[..|streams| - 1];
      Delivered(log, tail, before) && Concat(streams[|streams| - 1]) <= StreamOf(Asked(log, tail, before))
  }

  predicate InOrder(log: seq<Entry>) {
    forall i, j :: 0 <= i < j < |log| ==> !Less(log[j].at, log[i].at)
  }

  predicate StrictlyInOrder(log: seq<Entry>) {
    forall i, j :: 0 <= i < j < |log| ==> Less(log[i].at, log[j].at)
  }

  /* ── One entry, one line ─────────────────────────────────────────── */

  /** The carriage return before a line's end goes with it. */
  function Shown(text: seq<byte>): seq<byte> {
    if text != [] && text[|text| - 1] == CR then text[..|text| - 1] else text
  }

  function SentAs(e: Entry): Sent
  {
    Sent(Shown(e.text), e.stderr, Some(DockerText(e.at)))
  }

  function SentOf(entries: seq<Entry>): (sent: seq<Sent>)
    requires IsLog(entries)
    ensures |sent| == |entries|
  {
    seq(|entries|, i requires 0 <= i < |entries| => SentAs(entries[i]))
  }

  lemma EntryIsOneLine(e: Entry)
    requires Logged(e)
    ensures LinesOf(EntryFrame(e).payload, e.stderr) == [Line(RawLine(e.at, Shown(e.text)), e.stderr)]
  {
    hide DockerText;
    DockerTextIsOneLine(e.at);
    EndsALine(e.at, e.text);
    var raw := RawLine(e.at, e.text);
    var closed := [Closed(Shown(raw), raw[|raw| - 1] == CR)];
    assert closed[1..] == [] && Printed(closed, []) == raw + [LF];
    LinesAreTheTexts(closed, [], e.stderr);
  }

  lemma EndsALine(at: Stamp, text: seq<byte>)
    ensures RawLine(at, Shown(text)) == Shown(RawLine(at, text)) != []
  {
    hide DockerText;
    var raw := RawLine(at, text);
    if text != [] {
      assert raw[..|raw| - 1] == DockerText(at) + [SPACE] + text[..|text| - 1];
    }
  }

  lemma EntryTaken(s: Following, e: Entry, sent: Option<seq<byte>>)
    requires Logged(e)
    ensures TakeLine(s, Line(RawLine(e.at, Shown(e.text)), e.stderr), sent)
         == if IsFresh(e, sent) then Following(Some(OrderedText(e.at)), s.out + [SentAs(e)]) else s
  {
    hide DockerText, SplitTimestamp, OrderedTime, OrderedText, Less;
    LineSplits(e.at, Shown(e.text));
    OrderedTimeOf(e.at);
  }

  /** Later than what was sent when the stream was opened. */
  predicate IsFresh(e: Entry, sent: Option<seq<byte>>)
  {
    sent.None? || Less(sent.value, OrderedText(e.at))
  }

  function Fresh(entries: seq<Entry>, sent: Option<seq<byte>>): (newer: seq<Entry>)
    requires IsLog(entries)
    ensures IsLog(newer)
  {
    if entries == [] then []
    else (if IsFresh(entries[0], sent) then [entries[0]] else []) + Fresh(entries[1..], sent)
  }

  function LastOf(entries: seq<Entry>, before: Option<seq<byte>>): Option<seq<byte>>
    requires IsLog(entries)
  {
    if entries == [] then before else Some(OrderedText(entries[|entries| - 1].at))
  }

  /** After these entries were sent too. */
  function Added(s: Following, entries: seq<Entry>): Following
    requires IsLog(entries)
  {
    Following(LastOf(entries, s.last), s.out + SentOf(entries))
  }

  lemma AddedOneMore(s: Following, e: Entry, entries: seq<Entry>)
    requires Logged(e) && IsLog(entries)
    ensures Added(Following(Some(OrderedText(e.at)), s.out + [SentAs(e)]), entries) == Added(s, [e] + entries)
  {
    hide SentAs, OrderedText, Logged;
    assert SentOf([e] + entries) == [SentAs(e)] + SentOf(entries);
    assert s.out + ([SentAs(e)] + SentOf(entries)) == s.out + [SentAs(e)] + SentOf(entries);
  }

  lemma FreshStep(entries: seq<Entry>, sent: Option<seq<byte>>)
    requires IsLog(entries) && entries != []
    ensures var newer := Fresh(entries[1..], sent);
      Fresh(entries, sent) == if IsFresh(entries[0], sent) then [entries[0]] + newer else newer
  {
    hide IsFresh, Logged;
  }

  /** What a stream adds: the fresh entries it brought whole, in their order. */
  lemma {:induction false} EntriesTaken(s: Following, entries: seq<Entry>, sent: Option<seq<byte>>)
    requires IsLog(entries)
    ensures TakeLines(s, FrameLines(FramesOf(entries)), sent) == Added(s, Fresh(entries, sent))
    decreases |entries|
  {
    hide TakeLine, TakeLines, FrameLines, FramesOf, Added, Fresh, OrderedText, IsFresh, SentAs, Logged;
    if entries == [] {
      NothingTaken(s, sent);
    } else {
      var e, more := entries[0], entries[1..];
      assert Logged(e);
      FirstLine(entries);
      EntryTaken(s, e, sent);
      var line := Line(RawLine(e.at, Shown(e.text)), e.stderr);
      TakeOne(s, line, FrameLines(FramesOf(more)), sent);
      EntriesTaken(TakeLine(s, line, sent), more, sent);
      FreshStep(entries, sent);
      AddedOneMore(s, e, Fresh(more, sent));
    }
  }

  lemma NothingTaken(s: Following, sent: Option<seq<byte>>)
    ensures TakeLines(s, FrameLines(FramesOf([])), sent) == Added(s, Fresh([], sent)) == s
  {
    assert FramesOf([]) == [] && SentOf([]) == [];
    assert s.out + [] == s.out;
  }

  lemma FirstLine(entries: seq<Entry>)
    requires IsLog(entries) && entries != []
    ensures FrameLines(FramesOf(entries))
         == [Line(RawLine(entries[0].at, Shown(entries[0].text)), entries[0].stderr)] + FrameLines(FramesOf(entries[1..]))
  {
    hide EntryFrame, LinesOf, Logged, RawLine;
    assert Logged(entries[0]);
    EntryIsOneLine(entries[0]);
    StreamIs(entries[0]);
    assert FramesOf(entries)[1..] == FramesOf(entries[1..]);
  }

  lemma TakeOne(s: Following, line: Line, lines: seq<Line>, sent: Option<seq<byte>>)
    ensures TakeLines(s, [line] + lines, sent) == TakeLines(TakeLine(s, line, sent), lines, sent)
  {
    hide TakeLine;
    assert ([line] + lines)[1..] == lines;
  }

  lemma StreamIs(e: Entry)
    requires Logged(e)
    ensures (EntryFrame(e).stream == 2) == e.stderr
  {
  }

  lemma StreamTaken(s: Following, entries: seq<Entry>, part: seq<byte>) returns (n: nat)
    requires IsLog(entries) && part <= StreamOf(entries)
    ensures n <= |entries| && (part == StreamOf(entries) ==> n == |entries|)
    ensures TakeLines(s, Demux(part).lines, s.last) == Added(s, Fresh(entries[..n], s.last))
  {
    hide Demux, FrameLines, TakeLines, EntryFrame, Logged, Fresh, WriteFrames;
    n := PrefixReads(FramesOf(entries), part);
    assert FramesOf(entries)[..n] == FramesOf(entries[..n]);
    EntriesTaken(s, entries[..n], s.last);
  }

  /* ── The cursor and the order of the log ─────────────────────────── */

  /** In an ordered log, what is asked for from a line's own second is a run of the log that begins no later than the line. */
  lemma {:induction false} SinceIsARun(log: seq<Entry>, i: nat, at: nat) returns (p: nat)
    requires IsLog(log) && InOrder(log) && i <= at < |log|
    ensures i <= p <= at && Since(log[i..], DateText(log[at].at)) == log[p..]
    decreases at - i
  {
    hide DateText, Less, Logged;
    assert Logged(log[i]) && Logged(log[at]);
    StampOf(log[i]);
    StampOf(log[at]);
    if Less(DateText(log[i].at), DateText(log[at].at)) {
      SecondsInOrder(log[at].at, log[i].at);
      SameSecond(log[at].at);
      assert log[i..][1..] == log[i + 1..];
      p := SinceIsARun(log, i + 1, at);
    } else {
      p := i;
      AllAfter(log, i, DateText(log[at].at));
    }
  }

  lemma StampOf(e: Entry)
    requires Logged(e)
    ensures IsStamp(e.at) && |DateText(e.at)| == 19
  {
    hide DateText;
    DateTextShape(e.at);
  }

  lemma SameSecond(s: Stamp)
    requires IsStamp(s)
    ensures !Less(DateText(s), DateText(s))
  {
    LessIsTotal(DateText(s), DateText(s));
  }

  lemma NotBefore(s: Stamp, t: Stamp, second: seq<byte>)
    requires IsStamp(s) && IsStamp(t) && |second| == 19
    requires !Less(DateText(s), second) && !Less(t, s)
    ensures !Less(DateText(t), second)
  {
    hide DateText, Less;
    SecondsInOrder(s, t);
    DateTextShape(s);
    DateTextShape(t);
    if Less(DateText(t), second) {
      LessIsTotal(DateText(s), second);
      LessIsTotal(DateText(s), DateText(t));
      if DateText(s) != second {
        LessIsTransitive(DateText(t), second, DateText(s));
      }
    }
  }

  lemma {:induction false} AllAfter(log: seq<Entry>, i: nat, second: seq<byte>)
    requires IsLog(log) && InOrder(log) && i < |log| && |second| == 19
    requires !Less(DateText(log[i].at), second)
    ensures Since(log[i..], second) == log[i..]
    decreases |log| - i
  {
    hide DateText, Less, Logged;
    assert log[i..][1..] == log[i + 1..];
    if i + 1 < |log| {
      assert Logged(log[i]) && Logged(log[i + 1]);
      StampOf(log[i]);
      StampOf(log[i + 1]);
      NotBefore(log[i].at, log[i + 1].at, second);
      AllAfter(log, i + 1, second);
    }
  }

  /** Where the entries later than a time begin. */
  predicate IsCut(log: seq<Entry>, at: Stamp, cut: nat) {
    && cut <= |log|
    && (forall i :: 0 <= i < cut ==> !Less(at, log[i].at))
    && (forall i :: cut <= i < |log| ==> Less(at, log[i].at))
  }

  function Stretch(log: seq<Entry>, i: nat, j: nat): seq<Entry>
    requires j <= |log|
  {
    if i <= j then log[i..j] else []
  }

  lemma FreshIffLater(at: Stamp, e: Entry)
    requires IsStamp(at) && Logged(e)
    ensures IsFresh(e, Some(OrderedText(at))) <==> Less(at, e.at)
  {
    hide OrderedText, Less;
    TextOrderIsTimeOrder(at, e.at);
  }

  lemma StretchStep(log: seq<Entry>, cut: nat, p: nat, q: nat)
    requires p <= q <= |log|
    ensures p == q ==> Stretch(log, Max(p, cut), q) == []
    ensures p < q ==> Stretch(log, Max(p, cut), q) == (if p >= cut then [log[p]] else []) + Stretch(log, Max(p + 1, cut), q)
  {
  }

  /** Of a run of the log, the fresh entries are those past the cut. */
  lemma {:induction false} FreshOfRun(log: seq<Entry>, at: Stamp, cut: nat, p: nat, q: nat)
    requires IsLog(log) && IsStamp(at) && IsCut(log, at, cut) && p <= q <= |log|
    ensures Fresh(log[p..q], Some(OrderedText(at))) == Stretch(log, Max(p, cut), q)
    decreases q - p
  {
    hide OrderedText, Less, Logged, Fresh, IsFresh, IsStamp, Stretch;
    StretchStep(log, cut, p, q);
    if p == q {
      NoneFresh(Some(OrderedText(at)));
      assert log[p..q] == [];
    } else {
      assert Logged(log[p]);
      FreshIffLater(at, log[p]);
      FreshStep(log[p..q], Some(OrderedText(at)));
      assert log[p..q][1..] == log[p + 1..q];
      FreshOfRun(log, at, cut, p + 1, q);
      assert Less(at, log[p].at) <==> p >= cut;
    }
  }

  lemma NoneFresh(sent: Option<seq<byte>>)
    ensures Fresh([], sent) == []
  {
  }

  lemma {:induction false} AllFresh(entries: seq<Entry>)
    requires IsLog(entries)
    ensures Fresh(entries, None) == entries
  {
    if entries != [] {
      AllFresh(entries[1..]);
    }
  }

  /* ── Exactly once ────────────────────────────────────────────────── */

  /** What was sent is log[a..b], and the cursor is the time of its last line. */
  predicate SentRun(log: seq<Entry>, s: Following, a: nat, b: nat)
    requires IsLog(log)
  {
    && a <= b <= |log|
    && s.out == SentOf(log[a..b])
    && s.last == if a == b then None else Some(OrderedText(log[b - 1].at))
  }

  /** One more stream after a run was sent: the run goes on from the cut. */
  lemma RunGoesOn(log: seq<Entry>, s: Following, a: nat, b: nat, cut: nat, part: seq<byte>) returns (q: nat)
    requires IsLog(log) && InOrder(log) && SentRun(log, s, a, b) && a < b && IsCut(log, log[b - 1].at, cut)
    requires part <= StreamOf(Since(log, s.last.value[..Min(19, |s.last.value|)]))
    ensures q <= |log|
    ensures part == StreamOf(Since(log, s.last.value[..Min(19, |s.last.value|)])) ==> q == |log|
    ensures var more := Stretch(log, cut, q);
      IsLog(more) && TakeLines(s, Demux(part).lines, s.last) == Added(s, more)
  {
    hide OrderedText, DateText, Less, Logged, Demux, TakeLines, Since, StreamOf, Fresh;
    var at := log[b - 1].at;
    assert Logged(log[b - 1]);
    StampOf(log[b - 1]);
    SecondsInOrder(at, at);
    assert log[0..] == log;
    var p := SinceIsARun(log, 0, b - 1);
    var n := StreamTaken(s, log[p..], part);
    q := p + n;
    assert log[p..][..n] == log[p..q];
    FreshOfRun(log, at, cut, p, q);
    CutIsPast(log, b, cut);
  }

  lemma CutIsPast(log: seq<Entry>, b: nat, cut: nat)
    requires IsLog(log) && InOrder(log) && 1 <= b <= |log| && IsCut(log, log[b - 1].at, cut)
    ensures cut >= b
  {
    LessIsTotal(log[b - 1].at, log[b - 1].at);
  }

  lemma StrictIsInOrder(log: seq<Entry>, b: nat)
    requires StrictlyInOrder(log) && b <= |log|
    ensures InOrder(log)
    ensures b > 0 ==> IsCut(log, log[b - 1].at, b)
  {
    forall i, j | 0 <= i <= j < |log|
      ensures !Less(log[j].at, log[i].at)
    {
      LessIsTotal(log[i].at, log[j].at);
    }
  }

  lemma Joined(log: seq<Entry>, a: nat, b: nat, q: nat)
    requires IsLog(log) && a <= b <= q <= |log|
    ensures SentOf(log[a..b]) + SentOf(log[b..q]) == SentOf(log[a..q])
  {
    hide SentAs;
    assert log[a..b] + log[b..q] == log[a..q];
  }

  lemma NextRun(log: seq<Entry>, s: Following, a: nat, b: nat, part: seq<byte>) returns (q: nat)
    requires IsLog(log) && StrictlyInOrder(log) && SentRun(log, s, a, b) && a < b
    requires part <= StreamOf(Since(log, s.last.value[..Min(19, |s.last.value|)]))
    ensures b <= q <= |log| && SentRun(log, TakeLines(s, Demux(part).lines, s.last), a, q)
    ensures part == StreamOf(Since(log, s.last.value[..Min(19, |s.last.value|)])) ==> q == |log|
  {
    hide OrderedText, Less, Logged, Demux, TakeLines, Since, StreamOf, SentOf, StrictlyInOrder, IsCut;
    StrictIsInOrder(log, b);
    q := RunGoesOn(log, s, a, b, b, part);
    if q > b {
      Joined(log, a, b, q);
    } else {
      assert s.out + SentOf([]) == s.out;
      q := b;
    }
  }

  lemma FirstRun(log: seq<Entry>, s: Following, a: nat, part: seq<byte>) returns (b: nat)
    requires IsLog(log) && a <= |log| && s == STARTED
    requires part <= StreamOf(log[a..])
    ensures a <= b <= |log| && SentRun(log, TakeLines(s, Demux(part).lines, s.last), a, b)
    ensures part == StreamOf(log[a..]) ==> b == |log|
  {
    hide OrderedText, Less, Logged, Demux, TakeLines, StreamOf, Fresh;
    var n := StreamTaken(s, log[a..], part);
    b := a + n;
    AllFresh(log[a..][..n]);
    assert log[a..][..n] == log[a..b];
  }

  /** Whether the last stream brought all it was asked for. */
  predicate LastWasWhole(log: seq<Entry>, tail: nat, streams: seq<seq<seq<byte>>>)
    requires IsLog(log) && tail <= |log|
  {
    streams != [] && Concat(streams[|streams| - 1]) == StreamOf(Asked(log, tail, streams[..|streams| - 1]))
  }

  lemma {:induction false} TheRunSent(log: seq<Entry>, tail: nat, streams: seq<seq<seq<byte>>>) returns (a: nat, b: nat)
    requires IsLog(log) && StrictlyInOrder(log) && tail <= |log|
    requires Delivered(log, tail, streams)
    ensures SentRun(log, After(streams), a, b)
    ensures a == tail || a == 0
    ensures LastWasWhole(log, tail, streams) ==> b == |log|
    decreases |streams|
  {
    hide OrderedText, Less, Logged, Demux, TakeLines, Since, StreamOf, SentOf, StrictlyInOrder;
    if streams == [] {
      a, b := tail, tail;
      assert SentOf(log[a..b]) == [];
      return;
    }
    var before, part := streams[..|streams| - 1], Concat(streams[|streams| - 1]);
    a, b := TheRunSent(log, tail, before);
    var s := After(before);
    if a < b {
      b := NextRun(log, s, a, b, part);
    } else {
      a := if before == [] then tail else 0;
      assert log[0..] == log;
      b := FirstRun(log, s, a, part);
    }
  }

  /** Whatever streams there were, and wherever each broke, what was sent is one run of the log: no line twice, none left out. */
  lemma {:induction false} ExactlyOnce(log: seq<Entry>, tail: nat, streams: seq<seq<seq<byte>>>)
    requires IsLog(log) && StrictlyInOrder(log) && tail <= |log|
    requires Delivered(log, tail, streams)
    ensures exists a: nat, b: nat ::
              && SentRun(log, After(streams), a, b)
              && (a == tail || a == 0)
              && (LastWasWhole(log, tail, streams) ==> b == |log|)
  {
    hide SentRun, After, Delivered, LastWasWhole;
    var a, b := TheRunSent(log, tail, streams);
  }

  /* ── Times that are equal ────────────────────────────────────────── */

  /** The first entry from `b` on that is later than the line before `b`. */
  function NextLater(log: seq<Entry>, at: Stamp, b: nat): (cut: nat)
    requires b <= |log|
    ensures b <= cut <= |log|
    ensures forall i :: b <= i < cut ==> !Less(at, log[i].at)
    ensures cut < |log| ==> Less(at, log[cut].at)
    decreases |log| - b
  {
    if b == |log| || Less(at, log[b].at) then b else NextLater(log, at, b + 1)
  }

  lemma NextLaterIsTheCut(log: seq<Entry>, b: nat)
    requires IsLog(log) && InOrder(log) && 1 <= b <= |log|
    ensures IsCut(log, log[b - 1].at, NextLater(log, log[b - 1].at, b))
  {
    hide Less, Logged;
    var at, cut := log[b - 1].at, NextLater(log, log[b - 1].at, b);
    LessIsTotal(at, at);
    forall i | cut <= i < |log|
      ensures Less(at, log[i].at)
    {
      LessIsTotal(log[cut].at, log[i].at);
      if log[cut].at != log[i].at {
        LessIsTransitive(at, log[cut].at, log[i].at);
      }
    }
  }

  /** Docker may give two lines one time. A stream that breaks between them loses the second, and only that breaks the run. */
  lemma {:induction false} NothingIsLostIff(log: seq<Entry>, s: Following, a: nat, b: nat, part: seq<byte>)
    requires IsLog(log) && InOrder(log) && SentRun(log, s, a, b) && a < b
    requires part == StreamOf(Since(log, s.last.value[..Min(19, |s.last.value|)]))
    ensures TakeLines(s, Demux(part).lines, s.last).out == s.out + SentOf(log[NextLater(log, log[b - 1].at, b)..])
    ensures TakeLines(s, Demux(part).lines, s.last).out == SentOf(log[a..])
       <==> b == |log| || Less(log[b - 1].at, log[b].at)
  {
    hide OrderedText, Less, Logged, Demux, TakeLines, Since, StreamOf, SentOf, IsCut;
    var cut := NextLater(log, log[b - 1].at, b);
    NextLaterIsTheCut(log, b);
    var q := RunGoesOn(log, s, a, b, cut, part);
    assert log[cut..q] == log[cut..] && log[a..|log|] == log[a..] && log[b..|log|] == log[b..];
    Joined(log, a, b, |log|);
  }
}
