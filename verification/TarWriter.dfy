/** Writing a live world as an archive: what the walk yields, what becomes of each entry while it is read,
    and the chunks the generator makes of it. */
module TarWriter {
  import opened Bytes
  import opened TarFormat
  import opened Pax
  import opened ArchivePath

  /** How a file's reading went. The handle's size is taken once, and the reads stop at it. */
  datatype Reading =
    | NotOpened
    | NoLongerAFile
    | Read(size: nat, got: seq<seq<byte>>, sizeAfter: nat, mode: nat, mtime: int)

  /** One entry of the walk, with what the world did while it was archived; or a directory the walk could not open or list. */
  datatype Walked =
    | WalkedDirectory(path: Path, mode: nat, mtime: int)
    | WalkedFile(path: Path, reading: Reading)
    | NotWalked(path: Path)

  datatype Warning = SkippedFolder(path: Path) | SkippedFile(path: Path) | NotAFileAnyMore(path: Path) | Shrank(path: Path, to: nat) | Grew(path: Path)

  /** The read stream is given the size as its end, so it delivers no more than that. */
  predicate WithinSize(w: Walked) {
    w.WalkedFile? && w.reading.Read? ==> |Concat(w.reading.got)| <= w.reading.size
  }

  /* ── What is written, as a function of what was met ──────────────── */

  function PaddingTo(size: nat): seq<byte> { if size % BLOCK == 0 then [] else Zeros(BLOCK - size % BLOCK) }

  /** The header blocks of one entry: a long name goes in a PAX header before it. */
  function Headers(name: seq<byte>, size: nat, kind: byte, mode: nat, mtime: int): seq<byte> {
    (if |name| > NAME_FIELD then
       var record := PaxRecord(PATH_KEY, name);
       HeaderBlock(PAX_NAME, |record|, TYPE_PAX, 0x1A4, mtime) + (record + PaddingTo(|record|))
     else [])
    + HeaderBlock(name, size, kind, mode, mtime)
  }

  /** A file's bytes in the archive: the size it was opened with, zeros where it shrank. */
  function ArchivedBytes(size: nat, got: seq<seq<byte>>): (payload: seq<byte>)
    requires |Concat(got)| <= size
    ensures |payload| == size
  {
    Concat(got) + Zeros(size - |Concat(got)|)
  }

  function EntryBytes(w: Walked): seq<byte>
    requires WithinSize(w)
  {
    match w
    case WalkedDirectory(path, mode, mtime) => Headers(Join(path, SLASH) + [SLASH], 0, TYPE_DIRECTORY, mode, mtime)
    case WalkedFile(path, Read(size, got, _, mode, mtime)) =>
      Headers(Join(path, SLASH), size, TYPE_FILE, mode, mtime) + (ArchivedBytes(size, got) + PaddingTo(size))
    case WalkedFile(_, _) => []
    case NotWalked(_) => []
  }

  function EntriesBytes(entries: seq<Walked>): seq<byte>
    requires forall w :: w in entries ==> WithinSize(w)
    decreases |entries|
  {
    if entries == [] then [] else EntryBytes(entries[0]) + EntriesBytes(entries[1..])
  }

  /** The archive: its entries, and the two zero blocks that end it. */
  function Archive(entries: seq<Walked>): seq<byte>
    requires forall w :: w in entries ==> WithinSize(w)
  {
    EntriesBytes(entries) + Zeros(2 * BLOCK)
  }

  /** A read that fails ends the stream where it is, with no end to the file and none to the archive. */
  function BrokenOff(entries: seq<Walked>, path: Path, size: nat, got: seq<seq<byte>>, mode: nat, mtime: int): seq<byte>
    requires forall w :: w in entries ==> WithinSize(w)
  {
    EntriesBytes(entries) + Headers(Join(path, SLASH), size, TYPE_FILE, mode, mtime) + Concat(got)
  }

  function WarningsOf(w: Walked): seq<Warning>
    requires WithinSize(w)
  {
    match w
    case WalkedDirectory(_, _, _) => []
    case NotWalked(path) => [SkippedFolder(path)]
    case WalkedFile(path, NotOpened) => [SkippedFile(path)]
    case WalkedFile(path, NoLongerAFile) => [NotAFileAnyMore(path)]
    case WalkedFile(path, Read(size, got, sizeAfter, _, _)) =>
      if |Concat(got)| < size then [Shrank(path, |Concat(got)|)] else if sizeAfter > size then [Grew(path)] else []
  }

  function AllWarnings(entries: seq<Walked>): seq<Warning>
    requires forall w :: w in entries ==> WithinSize(w)
    decreases |entries|
  {
    if entries == [] then [] else WarningsOf(entries[0]) + AllWarnings(entries[1..])
  }

  /* ── What a warning says ─────────────────────────────────────────── */

  /** What an entry gives cause to say: it was not walked, it was not opened, was no file any more, gave fewer bytes than its size,
      or had grown when all of them were read. */
  predicate Complains(w: Walked, warning: Warning) {
    w.path == warning.path &&
    match warning
    case SkippedFolder(_) => w.NotWalked?
    case SkippedFile(_) => w.WalkedFile? && w.reading == NotOpened
    case NotAFileAnyMore(_) => w.WalkedFile? && w.reading == NoLongerAFile
    case Shrank(_, to) => w.WalkedFile? && w.reading.Read? && |Concat(w.reading.got)| == to < w.reading.size
    case Grew(_) => w.WalkedFile? && w.reading.Read? && |Concat(w.reading.got)| == w.reading.size < w.reading.sizeAfter
  }

  /** A directory, or a file that was read to its size and had not grown. */
  predicate ReadWhole(w: Walked) {
    match w
    case WalkedDirectory(_, _, _) => true
    case WalkedFile(_, reading) => reading.Read? && |Concat(reading.got)| == reading.size >= reading.sizeAfter
    case NotWalked(_) => false
  }

  /** Each warning is about the entry at its number; the numbers go up, and what is not among them was read whole. */
  predicate IsAbout(entries: seq<Walked>, warnings: seq<Warning>, from: seq<nat>) {
    && |from| == |warnings|
    && (forall k :: 0 <= k < |from| ==> from[k] < |entries| && Complains(entries[from[k]], warnings[k]))
    && (forall k, l :: 0 <= k < l < |from| ==> from[k] < from[l])
    && (forall i :: 0 <= i < |entries| && i !in from ==> ReadWhole(entries[i]))
  }

  /** The warnings say what happened to which entry: each entry at most once, in the order of the walk, and none is passed over. */
  ghost predicate SayWhatHappened(entries: seq<Walked>, warnings: seq<Warning>) {
    exists from: seq<nat> :: IsAbout(entries, warnings, from)
  }

  lemma OneIsAbout(entries: seq<Walked>, warnings: seq<Warning>, w: Walked)
    requires SayWhatHappened(entries, warnings) && WithinSize(w)
    ensures SayWhatHappened(entries + [w], warnings + WarningsOf(w))
  {
    hide Complains, ReadWhole, WarningsOf, WithinSize;
    var from: seq<nat> :| IsAbout(entries, warnings, from);
    OneWarning(w);
    if WarningsOf(w) == [] {
      assert IsAbout(entries + [w], warnings + WarningsOf(w), from) by {
        assert warnings + WarningsOf(w) == warnings;
      }
    } else {
      assert IsAbout(entries + [w], warnings + WarningsOf(w), from + [|entries|]) by {
        assert forall i :: i in from + [|entries|] <==> i in from || i == |entries|;
      }
    }
  }

  lemma OneWarning(w: Walked)
    requires WithinSize(w)
    ensures if WarningsOf(w) == [] then ReadWhole(w) else |WarningsOf(w)| == 1 && Complains(w, WarningsOf(w)[0])
  {
  }

  lemma {:induction false} AllAreAbout(entries: seq<Walked>)
    requires forall w :: w in entries ==> WithinSize(w)
    ensures SayWhatHappened(entries, AllWarnings(entries))
    decreases |entries|
  {
    hide AllWarnings, WarningsOf, WithinSize, SayWhatHappened;
    if entries == [] {
      NothingToSay();
    } else {
      var front, w := entries[..|entries| - 1], entries[|entries| - 1];
      assert entries == front + [w];
      OneMoreWarned(front, w);
      AllAreAbout(front);
      OneIsAbout(front, AllWarnings(front), w);
    }
  }

  lemma OneMoreWarned(entries: seq<Walked>, w: Walked)
    requires forall v :: v in entries + [w] ==> WithinSize(v)
    ensures WithinSize(w) && forall v :: v in entries ==> WithinSize(v)
    ensures AllWarnings(entries + [w]) == AllWarnings(entries) + WarningsOf(w)
  {
    hide WithinSize, WarningsOf, AllWarnings, EntriesBytes;
    assert w in entries + [w];
    EntriesSplit(entries, [w]);
    WarningsOfOne(w);
  }

  lemma WarningsOfOne(w: Walked)
    requires WithinSize(w)
    ensures forall v :: v in [w] ==> WithinSize(v)
    ensures AllWarnings([w]) == WarningsOf(w)
  {
    hide WithinSize, WarningsOf;
    assert [w][1..] == [];
    assert WarningsOf(w) + [] == WarningsOf(w);
  }

  lemma NothingToSay()
    ensures AllWarnings([]) == [] && SayWhatHappened([], [])
  {
    assert IsAbout([], [], []);
  }

  /** What there is to say of a path, and what is said of it. */
  lemma WhatIsSaid(entries: seq<Walked>, warnings: seq<Warning>)
    requires SayWhatHappened(entries, warnings) && forall w :: w in entries ==> WithinSize(w)
    ensures forall p :: SkippedFolder(p) in warnings <==> NotWalked(p) in entries
    ensures forall p :: SkippedFile(p) in warnings <==> WalkedFile(p, NotOpened) in entries
    ensures forall p :: NotAFileAnyMore(p) in warnings <==> WalkedFile(p, NoLongerAFile) in entries
    ensures forall p, to: nat :: Shrank(p, to) in warnings <==>
      exists w :: w in entries && w.WalkedFile? && w.path == p && w.reading.Read? && |Concat(w.reading.got)| == to < w.reading.size
    ensures forall p :: Grew(p) in warnings <==>
      exists w :: w in entries && w.WalkedFile? && w.path == p && w.reading.Read?
                  && |Concat(w.reading.got)| == w.reading.size < w.reading.sizeAfter
    ensures warnings == [] <==> forall w :: w in entries ==> ReadWhole(w)
  {
    hide SayWhatHappened;
    forall warning ensures warning in warnings <==> exists w :: w in entries && Complains(w, warning) {
      WhetherItIsSaid(entries, warnings, warning);
    }
    WhetherAnythingIs(entries, warnings);
  }

  lemma WhetherItIsSaid(entries: seq<Walked>, warnings: seq<Warning>, warning: Warning)
    requires SayWhatHappened(entries, warnings)
    ensures warning in warnings <==> exists w :: w in entries && Complains(w, warning)
  {
    hide ReadWhole, Complains;
    var from: seq<nat> :| IsAbout(entries, warnings, from);
    if warning in warnings {
      var k :| 0 <= k < |warnings| && warnings[k] == warning;
      assert entries[from[k]] in entries && Complains(entries[from[k]], warning);
    }
    if w :| w in entries && Complains(w, warning) {
      var i :| 0 <= i < |entries| && entries[i] == w;
      Wants(w, warning);
      var k :| 0 <= k < |from| && from[k] == i;
      SaidOnce(w, warning, warnings[k]);
    }
  }

  lemma Wants(w: Walked, warning: Warning)
    requires Complains(w, warning)
    ensures !ReadWhole(w)
  {
  }

  lemma SaidOnce(w: Walked, one: Warning, other: Warning)
    requires Complains(w, one) && Complains(w, other)
    ensures one == other
  {
  }

  lemma WhetherAnythingIs(entries: seq<Walked>, warnings: seq<Warning>)
    requires SayWhatHappened(entries, warnings)
    ensures warnings == [] <==> forall w :: w in entries ==> ReadWhole(w)
  {
    hide ReadWhole, Complains;
    var from: seq<nat> :| IsAbout(entries, warnings, from);
    if warnings != [] {
      Wants(entries[from[0]], warnings[0]);
    }
  }

  lemma {:induction false} EntriesSplit(a: seq<Walked>, b: seq<Walked>)
    requires forall w :: w in a + b ==> WithinSize(w)
    ensures (forall w :: w in a ==> WithinSize(w)) && (forall w :: w in b ==> WithinSize(w))
    ensures EntriesBytes(a + b) == EntriesBytes(a) + EntriesBytes(b)
    ensures AllWarnings(a + b) == AllWarnings(a) + AllWarnings(b)
    decreases |a|
  {
    hide EntryBytes, WarningsOf, WithinSize;
    forall w | w in a ensures WithinSize(w) { assert w in a + b; }
    forall w | w in b ensures WithinSize(w) { assert w in a + b; }
    if a == [] {
      assert a + b == b;
    } else {
      assert (a + b)[1..] == a[1..] + b;
      EntriesSplit(a[1..], b);
      assert (a + b)[0] == a[0];
      assert EntryBytes(a[0]) + (EntriesBytes(a[1..]) + EntriesBytes(b))
          == EntryBytes(a[0]) + EntriesBytes(a[1..]) + EntriesBytes(b);
      assert WarningsOf(a[0]) + (AllWarnings(a[1..]) + AllWarnings(b))
          == WarningsOf(a[0]) + AllWarnings(a[1..]) + AllWarnings(b);
    }
  }

  /* ── The generator ───────────────────────────────────────────────── */

  /** Where the generator's chunks and warnings go. */
  class Writer {
    var chunks: seq<seq<byte>>
    var warnings: seq<Warning>

    constructor ()
      ensures chunks == [] && warnings == []
    {
      chunks, warnings := [], [];
    }

    function Written(): seq<byte>
      reads this
    {
      Concat(chunks)
    }

    method Yield(chunk: seq<byte>)
      modifies this`chunks
      ensures Written() == old(Written()) + chunk
    {
      ConcatPush(chunks, chunk);
      chunks := chunks + [chunk];
    }

    method YieldHeader(name: seq<byte>, size: nat, kind: byte, mode: nat, mtime: int)
      modifies this`chunks
      ensures Written() == old(Written()) + HeaderBlock(name, size, kind, mode, mtime)
    {
      hide HeaderBlock, Concat;
      var block := Header(name, size, kind, mode, mtime);
      Yield(block[..]);
    }

    method YieldHeaders(name: seq<byte>, size: nat, kind: byte, mode: nat, mtime: int)
      modifies this`chunks
      ensures Written() == old(Written()) + Headers(name, size, kind, mode, mtime)
    {
      hide HeaderBlock, PaxRecord, Concat;
      if |name| > NAME_FIELD {
        var record := WritePaxRecord(PATH_KEY, name);
        YieldHeader(PAX_NAME, |record|, TYPE_PAX, 0x1A4, mtime);
        Yield(record);
        var remainder := |record| % BLOCK;
        if remainder != 0 { Yield(Zeros(BLOCK - remainder)); }
        assert Written() == old(Written()) + (HeaderBlock(PAX_NAME, |record|, TYPE_PAX, 0x1A4, mtime) + (record + PaddingTo(|record|)));
      }
      YieldHeader(name, size, kind, mode, mtime);
    }

    /** The bytes of a file as they are read, and how many there were. */
    method YieldReads(got: seq<seq<byte>>) returns (written: nat)
      modifies this`chunks
      ensures written == |Concat(got)| && Written() == old(Written()) + Concat(got)
    {
      hide Concat;
      written := 0;
      ghost var start := Written();
      ConcatNone(got);
      var i := 0;
      while i < |got|
        invariant 0 <= i <= |got|
        invariant written == |Concat(got[..i])|
        invariant Written() == start + Concat(got[..i])
      {
        assert got[..i + 1] == got[..i] + [got[i]];
        ConcatPush(got[..i], got[i]);
        written := written + |got[i]|;
        Yield(got[i]);
        i := i + 1;
      }
      assert got[..i] == got;
    }

    /** A file's payload: what is read, zeros for what it shrank by, and the padding. */
    method YieldPayload(path: Path, size: nat, got: seq<seq<byte>>, sizeAfter: nat, mode: nat, mtime: int)
      requires |Concat(got)| <= size
      modifies this
      ensures Written() == old(Written()) + (ArchivedBytes(size, got) + PaddingTo(size))
      ensures warnings == old(warnings) + WarningsOf(WalkedFile(path, Read(size, got, sizeAfter, mode, mtime)))
    {
      hide Concat;
      ghost var start := Written();
      var written := YieldReads(got);
      if written < size {
        warnings := warnings + [Shrank(path, written)];
        Yield(Zeros(size - written));
      } else if sizeAfter > size {
        warnings := warnings + [Grew(path)];
      }
      assert Written() == start + ArchivedBytes(size, got);
      var remainder := size % BLOCK;
      if remainder != 0 { Yield(Zeros(BLOCK - remainder)); }
    }

    method YieldEntry(w: Walked)
      requires WithinSize(w)
      modifies this
      ensures Written() == old(Written()) + EntryBytes(w)
      ensures warnings == old(warnings) + WarningsOf(w)
    {
      hide Headers, ArchivedBytes, Concat;
      match w
      case WalkedDirectory(path, mode, mtime) =>
        YieldHeaders(Join(path, SLASH) + [SLASH], 0, TYPE_DIRECTORY, mode, mtime);
      case NotWalked(path) =>
        warnings := warnings + [SkippedFolder(path)];
      case WalkedFile(path, NotOpened) =>
        warnings := warnings + [SkippedFile(path)];
      case WalkedFile(path, NoLongerAFile) =>
        warnings := warnings + [NotAFileAnyMore(path)];
      case WalkedFile(path, Read(size, got, sizeAfter, mode, mtime)) =>
        YieldHeaders(Join(path, SLASH), size, TYPE_FILE, mode, mtime);
        YieldPayload(path, size, got, sizeAfter, mode, mtime);
    }

    method YieldEntries(entries: seq<Walked>)
      requires chunks == [] && warnings == []
      requires forall w :: w in entries ==> WithinSize(w)
      modifies this
      ensures Written() == EntriesBytes(entries)
      ensures warnings == AllWarnings(entries)
    {
      hide EntryBytes, WarningsOf, WithinSize;
      var i := 0;
      while i < |entries|
        invariant 0 <= i <= |entries|
        invariant forall w :: w in entries[..i] ==> WithinSize(w)
        invariant Written() == EntriesBytes(entries[..i])
        invariant warnings == AllWarnings(entries[..i])
      {
        var w := entries[i];
        assert entries[..i + 1] == entries[..i] + [w];
        EntriesSplit(entries[..i], [w]);
        assert [w][1..] == [];
        YieldEntry(w);
        i := i + 1;
      }
      assert entries[..i] == entries;
    }

    method TarChunks(entries: seq<Walked>)
      requires chunks == [] && warnings == []
      requires forall w :: w in entries ==> WithinSize(w)
      modifies this
      ensures Written() == Archive(entries)
      ensures warnings == AllWarnings(entries) && SayWhatHappened(entries, warnings)
    {
      hide EntriesBytes, AllWarnings, WithinSize, SayWhatHappened;
      AllAreAbout(entries);
      YieldEntries(entries);
      Yield(Zeros(2 * BLOCK));
    }

    /** The generator throws while it reads a file: what it had yielded is all there is. */
    method TarChunksThatThrow(entries: seq<Walked>, path: Path, size: nat, got: seq<seq<byte>>, mode: nat, mtime: int)
      requires chunks == [] && warnings == []
      requires forall w :: w in entries ==> WithinSize(w)
      modifies this
      ensures Written() == BrokenOff(entries, path, size, got, mode, mtime)
    {
      hide EntriesBytes, AllWarnings, WithinSize, Headers, Concat;
      YieldEntries(entries);
      YieldHeaders(Join(path, SLASH), size, TYPE_FILE, mode, mtime);
      var _ := YieldReads(got);
    }
  }
}
