/** What is written is what is unpacked: entry by entry, then the whole archive, cut into chunks anywhere or cut short. */
module TarRoundTrip {
  import opened Bytes
  import opened TarFormat
  import opened Pax
  import opened ArchivePath
  import opened TarReader
  import opened TarWriter

  /* ── What an archive of these entries should unpack to ───────────── */

  /** What an entry leaves in the tree, when it was archived at all. */
  function NodeOf(w: Walked): Option<Node>
    requires WithinSize(w)
  {
    match w
    case WalkedDirectory(_, _, _) => Some(Dir)
    case WalkedFile(_, Read(size, got, _, _, _)) => Some(File(ArchivedBytes(size, got)))
    case WalkedFile(_, _) => None
    case NotWalked(_) => None
  }

  function With(tree: Tree, w: Walked): Tree
    requires WithinSize(w)
  {
    if NodeOf(w).Some? then tree[w.path := NodeOf(w).value] else tree
  }

  function CountOf(w: Walked): nat { if w.WalkedFile? && w.reading.Read? then 1 else 0 }

  function TreeOf(tree: Tree, entries: seq<Walked>): Tree
    requires forall w :: w in entries ==> WithinSize(w)
    decreases |entries|
  {
    if entries == [] then tree else TreeOf(With(tree, entries[0]), entries[1..])
  }

  function FilesOf(entries: seq<Walked>): nat
    decreases |entries|
  {
    if entries == [] then 0 else CountOf(entries[0]) + FilesOf(entries[1..])
  }

  /** An entry the format carries whole: a proper path, a size of at most twelve octal digits, a PAX record a reader takes. */
  predicate Archivable(w: Walked) {
    && WithinSize(w)
    && w.path != [] && IsPath(w.path) && !StartsWithBackslash(w.path)
    && Utf8Shaped(EntryName(w))
    && (w.WalkedFile? && w.reading.Read? ==> w.reading.size < Pow(8, 12))
    && |PaxRecord(PATH_KEY, EntryName(w))| <= MAX_METADATA_BYTES
  }

  function EntryName(w: Walked): Name {
    if w.WalkedDirectory? then Join(w.path, SLASH) + [SLASH] else Join(w.path, SLASH)
  }

  predicate AllDirs(tree: Tree, p: Path) {
    forall i :: 1 <= i <= |p| ==> p[..i] in tree && tree[p[..i]] == Dir
  }

  /** Entries as a walk lists them: each one new, inside directories listed before it. */
  predicate Fits(tree: Tree, entries: seq<Walked>)
    decreases |entries|
  {
    entries != [] ==>
      && Archivable(entries[0])
      && (NodeOf(entries[0]).Some? ==>
            entries[0].path !in tree && AllDirs(tree, entries[0].path[..|entries[0].path| - 1]))
      && Fits(With(tree, entries[0]), entries[1..])
  }

  lemma {:induction false} FitsAreWithinSize(tree: Tree, entries: seq<Walked>)
    requires Fits(tree, entries)
    ensures forall w :: w in entries ==> WithinSize(w)
    decreases |entries|
  {
    if entries != [] {
      FitsAreWithinSize(With(tree, entries[0]), entries[1..]);
    }
  }

  /* ── Reading one entry ───────────────────────────────────────────── */

  function At(r: Reader, pending: seq<byte>): Reader { r.(pending := pending) }

  predicate Idle(r: Reader) { r.current.None? && !r.ended && r.longName.None? }

  lemma DrainStep(base: Path, r: Reader)
    requires !r.ended && Step(base, r).More?
    ensures Drain(base, r) == Drain(base, Step(base, r).reader)
  {
    hide Step;
  }

  /** One header on the front of the stream is the header that was written. */
  lemma HeaderStep(base: Path, r: Reader, name: seq<byte>, size: nat, kind: byte, mode: nat, mtime: int, rest: seq<byte>)
    requires r.current.None? && !r.ended
    requires name != [] && NUL !in name && Utf8Shaped(name) && size < Pow(8, 12) && kind < 128
    ensures var block := HeaderBlock(name, size, kind, mode, mtime);
      && block[0] != NUL && SizeOf(block) == size && KindOf(block) == kind
      && (|name| <= NAME_FIELD ==> HeaderName(block) == name)
      && Step(base, At(r, block + rest)) == ReadHeader(base, At(r, rest), block)
  {
    hide HeaderBlock, ReadHeader, NameOf, PrefixOf, SizeOf, KindOf, Pow;
    var block := HeaderBlock(name, size, kind, mode, mtime);
    assert (block + rest)[..BLOCK] == block && (block + rest)[BLOCK..] == rest;
    HeaderIsNotTheEnd(name, size, kind, mode, mtime);
    HeaderSizeReadsBack(name, size, kind, mode, mtime);
    HeaderKindReadsBack(name, size, kind, mode, mtime);
    HeaderHasNoPrefix(name, size, kind, mode, mtime);
    if |name| <= NAME_FIELD {
      HeaderNameReadsBack(name, size, kind, mode, mtime);
    }
  }

  /** What follows once an entry's name, size and type are known. */
  function Admitted(base: Path, r: Reader, name: seq<byte>, size: nat, kind: byte): Result<Reader, Failure> {
    match Admit(base, r, name, size, kind)
    case Fail(e) => Err(e)
    case Wait(next) => Ok(next)
    case More(next) => Drain(base, next)
  }

  /** The header blocks of an entry give the reader its whole name, long or short. */
  lemma HeadersRead(base: Path, r: Reader, name: seq<byte>, size: nat, kind: byte, mode: nat, mtime: int, rest: seq<byte>)
    requires Idle(r)
    requires name != [] && NUL !in name && Utf8Shaped(name) && size < Pow(8, 12)
    requires kind == TYPE_FILE || kind == TYPE_DIRECTORY
    requires |PaxRecord(PATH_KEY, name)| <= MAX_METADATA_BYTES
    ensures Drain(base, At(r, Headers(name, size, kind, mode, mtime) + rest)) == Admitted(base, At(r, rest), name, size, kind)
  {
    hide HeaderBlock, HeaderName, NameOf, SizeOf, KindOf, PaxRecord, Admit, Pow, PaddingTo;
    var block := HeaderBlock(name, size, kind, mode, mtime);
    HeaderStep(base, r, name, size, kind, mode, mtime, rest);
    if |name| <= NAME_FIELD {
      assert Headers(name, size, kind, mode, mtime) == block;
      StepIsAdmit(base, r, block, rest, name);
    } else {
      var record := PaxRecord(PATH_KEY, name);
      var long := r.(longName := Some(name));
      assert Headers(name, size, kind, mode, mtime) + rest
          == HeaderBlock(PAX_NAME, |record|, TYPE_PAX, 0x1A4, mtime) + (record + PaddingTo(|record|) + (block + rest));
      PaxRead(base, r, name, mtime, block + rest);
      HeaderStep(base, long, name, size, kind, mode, mtime, rest);
      StepIsAdmit(base, long, block, rest, name);
    }
  }

  lemma StepIsAdmit(base: Path, r: Reader, block: seq<byte>, rest: seq<byte>, name: seq<byte>)
    requires r.current.None? && !r.ended && |block| == BLOCK
    requires block[0] != NUL && !IsMetadata(KindOf(block)) && SizeOf(block) >= 0
    requires if r.longName.Some? then r.longName.value == name else HeaderName(block) == name
    requires Step(base, At(r, block + rest)) == ReadHeader(base, At(r, rest), block)
    ensures Drain(base, At(r, block + rest)) == Admitted(base, At(r.(longName := None), rest), name, SizeOf(block), KindOf(block))
  {
    hide HeaderName, NameOf, SizeOf, KindOf, Admit, IsMetadata;
    var start := At(r, block + rest);
    assert At(r.(longName := None), rest) == At(r, rest).(longName := None);
    if r.longName.None? {
      assert At(r.(longName := None), rest) == At(r, rest);
    }
    if Step(base, start).More? {
      DrainStep(base, start);
    }
  }

  /** The PAX entry in front of a long name leaves the name with the reader. */
  lemma PaxRead(base: Path, r: Reader, name: seq<byte>, mtime: int, rest: seq<byte>)
    requires Idle(r) && |PaxRecord(PATH_KEY, name)| <= MAX_METADATA_BYTES
    ensures var record := PaxRecord(PATH_KEY, name);
      Drain(base, At(r, HeaderBlock(PAX_NAME, |record|, TYPE_PAX, 0x1A4, mtime) + (record + PaddingTo(|record|) + rest)))
      == Drain(base, At(r.(longName := Some(name)), rest))
  {
    hide HeaderBlock, HeaderName, NameOf, SizeOf, KindOf, Admit, Pow, PaxRecord, PathFromMetadata;
    var record := PaxRecord(PATH_KEY, name);
    var block := HeaderBlock(PAX_NAME, |record|, TYPE_PAX, 0x1A4, mtime);
    var body := record + PaddingTo(|record|) + rest;
    MebibyteFits();
    HeaderStep(base, r, PAX_NAME, |record|, TYPE_PAX, 0x1A4, mtime, body);
    var start := At(r, block + body);
    var inside := At(r.(current := Some(Metadata(TYPE_PAX, [], |record|, PaddingOf(|record|)))), body);
    assert Step(base, start) == More(inside);
    DrainStep(base, start);
    PaxPayloadStep(base, r, name, rest);
    DrainStep(base, inside);
  }

  lemma MebibyteFits()
    ensures MAX_METADATA_BYTES < Pow(8, 12)
  {
    assert Pow(8, 4) == 4096;
    assert Pow(8, 8) == 4096 * 4096;
  }

  lemma PaxPayloadStep(base: Path, r: Reader, name: seq<byte>, rest: seq<byte>)
    requires Idle(r)
    ensures var record := PaxRecord(PATH_KEY, name);
      Step(base, At(r.(current := Some(Metadata(TYPE_PAX, [], |record|, PaddingOf(|record|)))), record + PaddingTo(|record|) + rest))
      == More(At(r.(longName := Some(name)), rest))
  {
    hide PathFromMetadata, PaxRecord;
    var record := PaxRecord(PATH_KEY, name);
    PathReadsBack(name);
    RecordIsNotEmpty(name);
    var pending := record + PaddingTo(|record|) + rest;
    assert pending[..|record|] == record && pending[|record|..] == PaddingTo(|record|) + rest;
    assert [] + record == record;
    PaddingSkips(|record|, rest);
  }

  lemma RecordIsNotEmpty(name: seq<byte>)
    ensures |PaxRecord(PATH_KEY, name)| > 0
  {
  }

  lemma PaddingSkips(size: nat, rest: seq<byte>)
    ensures |PaddingTo(size)| == PaddingOf(size)
    ensures (PaddingTo(size) + rest)[PaddingOf(size)..] == rest
  {
  }

  /* ── Its directories and its payload ─────────────────────────────── */

  lemma {:induction false} DirsAreThere(tree: Tree, p: Path)
    requires AllDirs(tree, p)
    ensures MakeDirs(tree, p) == Ok(tree)
    decreases |p|
  {
    if p != [] {
      var parent := p[..|p| - 1];
      forall i | 1 <= i <= |parent| ensures parent[..i] in tree && tree[parent[..i]] == Dir {
        assert parent[..i] == p[..i];
      }
      DirsAreThere(tree, parent);
      assert p[..|p|] == p;
      assert tree[p := Dir] == tree;
    }
  }

  lemma NewDir(tree: Tree, p: Path)
    requires p != [] && AllDirs(tree, p[..|p| - 1]) && p !in tree
    ensures MakeDirs(tree, p) == Ok(tree[p := Dir])
  {
    DirsAreThere(tree, p[..|p| - 1]);
  }

  lemma BodyRead(base: Path, r: Reader, dest: Path, payload: seq<byte>, rest: seq<byte>)
    requires Idle(r) && payload != [] && dest in r.tree && r.tree[dest] == File([])
    ensures Drain(base, At(r.(current := Some(Body(dest, |payload|, PaddingOf(|payload|)))), payload + PaddingTo(|payload|) + rest))
         == Drain(base, At(r.(tree := r.tree[dest := File(payload)], files := r.files + 1), rest))
  {
    var pending := payload + PaddingTo(|payload|) + rest;
    var start := At(r.(current := Some(Body(dest, |payload|, PaddingOf(|payload|)))), pending);
    BodyStep(base, r, dest, payload, rest);
    DrainStep(base, start);
  }

  lemma BodyStep(base: Path, r: Reader, dest: Path, payload: seq<byte>, rest: seq<byte>)
    requires Idle(r) && payload != [] && dest in r.tree && r.tree[dest] == File([])
    ensures Step(base, At(r.(current := Some(Body(dest, |payload|, PaddingOf(|payload|)))), payload + PaddingTo(|payload|) + rest))
         == More(At(r.(tree := r.tree[dest := File(payload)], files := r.files + 1), rest))
  {
    hide PathFromMetadata, PaddingTo, PaddingOf;
    var pending := payload + PaddingTo(|payload|) + rest;
    assert pending[..|payload|] == payload && pending[|payload|..] == PaddingTo(|payload|) + rest;
    assert [] + payload == payload;
    PaddingSkips(|payload|, rest);
  }

  lemma DirectoryRead(base: Path, r: Reader, w: Walked, rest: seq<byte>)
    requires Idle(r) && Archivable(w) && w.WalkedDirectory?
    requires w.path !in r.tree && AllDirs(r.tree, w.path[..|w.path| - 1])
    requires SafeJoin(base, EntryName(w)) == Ok(w.path)
    requires EntryName(w) != [] && NUL !in EntryName(w)
    ensures Drain(base, At(r, EntryBytes(w) + rest)) == Drain(base, At(r.(tree := With(r.tree, w)), rest))
  {
    hide Headers, Admit, PaxRecord, Drain, Pow, Utf8Shaped, SafeJoin, MakeDirs, AllDirs, EntryName;
    var name := EntryName(w);
    EightOrMore();
    HeadersRead(base, r, name, 0, TYPE_DIRECTORY, w.mode, w.mtime, rest);
    NewDir(r.tree, w.path);
    AdmitDirectory(base, At(r, rest), name, w.path);
    assert EntryBytes(w) == Headers(name, 0, TYPE_DIRECTORY, w.mode, w.mtime) by { DirectoryBytes(w); }
  }

  lemma EightOrMore()
    ensures 0 < Pow(8, 12)
  {
  }

  lemma DirectoryBytes(w: Walked)
    requires WithinSize(w) && w.WalkedDirectory?
    ensures EntryBytes(w) == Headers(EntryName(w), 0, TYPE_DIRECTORY, w.mode, w.mtime)
  {
    hide Headers;
  }

  /** One archived entry, read whole. */
  lemma {:induction false} EntryRead(base: Path, r: Reader, w: Walked, rest: seq<byte>)
    requires Idle(r) && Archivable(w)
    requires NodeOf(w).Some? ==> w.path !in r.tree && AllDirs(r.tree, w.path[..|w.path| - 1])
    ensures Drain(base, At(r, EntryBytes(w) + rest))
         == Drain(base, At(r.(tree := With(r.tree, w), files := r.files + CountOf(w)), rest))
  {
    hide Headers, PaxRecord, Drain, Pow, Utf8Shaped, SafeJoin, Join, ArchivedBytes, PaddingTo, AllDirs;
    if NodeOf(w).None? {
      assert EntryBytes(w) + rest == rest;
      assert r.(tree := With(r.tree, w), files := r.files + CountOf(w)) == r;
    } else {
      NameIsClean(w);
      WrittenNameLands(base, w.path);
      if w.WalkedDirectory? {
        DirectoryRead(base, r, w, rest);
      } else {
        FileRead(base, r, w, rest);
      }
    }
  }

  lemma NameIsClean(w: Walked)
    requires Archivable(w)
    ensures EntryName(w) != [] && NUL !in EntryName(w)
  {
    assert w.path[0] in w.path;
    JoinBytes(w.path, NUL);
    JoinStart(w.path);
  }

  lemma AdmitDirectory(base: Path, r: Reader, name: Name, dest: Path)
    requires SafeJoin(base, name) == Ok(dest) && MakeDirs(r.tree, dest) == Ok(r.tree[dest := Dir])
    ensures Admit(base, r, name, 0, TYPE_DIRECTORY) == More(r.(tree := r.tree[dest := Dir]))
  {
    hide SafeJoin, MakeDirs;
  }

  lemma AdmitFile(base: Path, r: Reader, name: Name, dest: Path, size: nat)
    requires SafeJoin(base, name) == Ok(dest) && dest != [] && dest !in r.tree
    requires MakeDirs(r.tree, dest[..|dest| - 1]) == Ok(r.tree)
    ensures Admit(base, r, name, size, TYPE_FILE) == More(
      if size == 0 then r.(tree := r.tree[dest := File([])], files := r.files + 1)
      else r.(tree := r.tree[dest := File([])], current := Some(Body(dest, size, PaddingOf(size)))))
  {
    hide SafeJoin, MakeDirs;
  }

  lemma FileRead(base: Path, r: Reader, w: Walked, rest: seq<byte>)
    requires Idle(r) && Archivable(w) && w.WalkedFile? && w.reading.Read?
    requires w.path !in r.tree && AllDirs(r.tree, w.path[..|w.path| - 1])
    requires SafeJoin(base, EntryName(w)) == Ok(w.path)
    requires EntryName(w) != [] && NUL !in EntryName(w)
    ensures Drain(base, At(r, EntryBytes(w) + rest))
         == Drain(base, At(r.(tree := With(r.tree, w), files := r.files + 1), rest))
  {
    hide Headers, Admit, PaxRecord, Drain, Pow, Utf8Shaped, SafeJoin, MakeDirs, PaddingTo, AllDirs;
    var path, name, size := w.path, EntryName(w), w.reading.size;
    var payload := ArchivedBytes(size, w.reading.got);
    var headers := Headers(name, size, TYPE_FILE, w.reading.mode, w.reading.mtime);
    var after := payload + PaddingTo(size) + rest;
    assert EntryBytes(w) + rest == headers + after;
    HeadersRead(base, r, name, size, TYPE_FILE, w.reading.mode, w.reading.mtime, after);
    DirsAreThere(r.tree, path[..|path| - 1]);
    AdmitFile(base, At(r, after), name, path, size);
    var opened' := r.(tree := r.tree[path := File([])]);
    if size == 0 {
      assert PaddingTo(0) == [] by { PaddingSkips(0, []); }
      assert payload == [] && after == rest;
    } else {
      BodyRead(base, opened', path, payload, rest);
      assert r.tree[path := File([])][path := File(payload)] == r.tree[path := File(payload)];
    }
  }

  /** All of them, in a row. */
  lemma {:induction false} EntriesRead(base: Path, r: Reader, entries: seq<Walked>, rest: seq<byte>)
    requires Idle(r) && Fits(r.tree, entries)
    ensures forall w :: w in entries ==> WithinSize(w)
    ensures Drain(base, At(r, EntriesBytes(entries) + rest))
         == Drain(base, At(r.(tree := TreeOf(r.tree, entries), files := r.files + FilesOf(entries)), rest))
    decreases |entries|
  {
    hide EntryBytes, Drain, With, Archivable, WithinSize;
    FitsAreWithinSize(r.tree, entries);
    if entries == [] {
      assert EntriesBytes(entries) + rest == rest;
    } else {
      var w, more := entries[0], entries[1..];
      assert w in entries;
      assert EntriesBytes(entries) + rest == EntryBytes(w) + (EntriesBytes(more) + rest);
      EntryRead(base, r, w, EntriesBytes(more) + rest);
      EntriesRead(base, r.(tree := With(r.tree, w), files := r.files + CountOf(w)), more, rest);
    }
  }

  /* ── The whole archive ───────────────────────────────────────────── */

  function Whole(entries: seq<Walked>): Unpacked
    requires forall w :: w in entries ==> WithinSize(w)
  {
    Unpacked(TreeOf(map[], entries), FilesOf(entries))
  }

  /** The reader over the entries and whatever follows them. */
  lemma AfterEntries(base: Path, entries: seq<Walked>, rest: seq<byte>)
    requires Fits(map[], entries)
    ensures forall w :: w in entries ==> WithinSize(w)
    ensures Feed(base, START, EntriesBytes(entries) + rest)
         == Drain(base, At(START.(tree := Whole(entries).tree, files := Whole(entries).files), rest))
  {
    hide Drain, EntriesBytes, TreeOf, FilesOf, Fits, WithinSize;
    FitsAreWithinSize(map[], entries);
    EntriesRead(base, START, entries, rest);
    assert [] + (EntriesBytes(entries) + rest) == EntriesBytes(entries) + rest;
  }

  lemma EndRead(base: Path, r: Reader, tail: seq<byte>)
    requires Idle(r) && |tail| >= BLOCK && tail[0] == NUL
    ensures Drain(base, At(r, tail)) == Ok(At(r.(ended := true), tail[BLOCK..]))
  {
    var next := At(r.(ended := true), tail[BLOCK..]);
    assert tail[..BLOCK][0] == NUL;
    assert Step(base, At(r, tail)) == More(next);
    DrainStep(base, At(r, tail));
    assert Drain(base, next) == Ok(next);
  }

  /** The stream of an archive ends where its first end block does; what it holds is the entries, whatever follows. */
  lemma WholeRead(base: Path, entries: seq<Walked>, tail: seq<byte>, chunks: seq<seq<byte>>)
    requires Fits(map[], entries) && |tail| >= BLOCK && tail[0] == NUL
    requires forall w :: w in entries ==> WithinSize(w)
    requires Concat(chunks) == EntriesBytes(entries) + tail
    ensures Extract(base, chunks) == Ok(Whole(entries))
  {
    hide Drain, Step, EntriesBytes, Fits, WithinSize, Whole, Extract;
    CutsDoNotMatter(base, chunks);
    AfterEntries(base, entries, tail);
    var r := START.(tree := Whole(entries).tree, files := Whole(entries).files);
    EndRead(base, r, tail);
    ExtractOne(base, Concat(chunks), At(r.(ended := true), tail[BLOCK..]));
  }

  lemma ExtractOne(base: Path, stream: seq<byte>, r: Reader)
    requires Feed(base, START, stream) == Ok(r)
    ensures Extract(base, [stream]) == Verdict(r)
  {
    hide Feed;
    assert [stream][1..] == [];
    assert FeedAll(base, r, [stream][1..]) == Ok(r);
  }

  /** A whole archive, cut into chunks anywhere, unpacks to exactly its entries. */
  lemma {:induction false} RoundTrip(base: Path, entries: seq<Walked>, chunks: seq<seq<byte>>)
    requires Fits(map[], entries)
    requires forall w :: w in entries ==> WithinSize(w)
    requires Concat(chunks) == Archive(entries)
    ensures Extract(base, chunks) == Ok(Whole(entries))
  {
    WholeRead(base, entries, Zeros(2 * BLOCK), chunks);
  }

  /** What an entry gave is what the tree holds at its path: a directory, or a file of its size with what was read and zeros after it. */
  predicate IsAsRead(node: Node, w: Walked) {
    if w.WalkedDirectory? then node == Dir
    else
      && w.WalkedFile? && w.reading.Read? && node.File? && |node.bytes| == w.reading.size && Concat(w.reading.got) <= node.bytes
      && forall i :: |Concat(w.reading.got)| <= i < |node.bytes| ==> node.bytes[i] == 0
  }

  predicate IsArchived(w: Walked) { w.WalkedDirectory? || (w.WalkedFile? && w.reading.Read?) }

  function FilePaths(tree: Tree): set<Path> { set p | p in tree && tree[p].File? }

  lemma NodeIsAsRead(w: Walked)
    requires WithinSize(w)
    ensures NodeOf(w).Some? <==> IsArchived(w)
    ensures IsArchived(w) ==> IsAsRead(NodeOf(w).value, w) && (CountOf(w) == if NodeOf(w).value.File? then 1 else 0)
    ensures !IsArchived(w) ==> CountOf(w) == 0
  {
  }

  lemma OneMoreFile(tree: Tree, w: Walked)
    requires WithinSize(w) && (IsArchived(w) ==> w.path !in tree)
    ensures |FilePaths(With(tree, w))| == |FilePaths(tree)| + CountOf(w)
  {
    hide WithinSize, IsAsRead, Concat, ArchivedBytes;
    NodeIsAsRead(w);
    var files, t := FilePaths(tree), With(tree, w);
    if CountOf(w) == 1 {
      assert FilePaths(t) == files + {w.path} && w.path !in files;
    } else {
      assert FilePaths(t) == files;
    }
  }

  /** The entries' tree: what it had stays, every entry that was read is there, nothing else is, and its files are counted. */
  lemma {:induction false} TreeHolds(tree: Tree, entries: seq<Walked>)
    requires Fits(tree, entries) && forall w :: w in entries ==> WithinSize(w)
    ensures var t := TreeOf(tree, entries);
      && (forall p :: p in tree ==> p in t && t[p] == tree[p])
      && (forall w :: w in entries && IsArchived(w) ==> w.path in t && IsAsRead(t[w.path], w))
      && (forall p :: p in t ==> p in tree || exists w :: w in entries && IsArchived(w) && w.path == p)
      && |FilePaths(t)| == |FilePaths(tree)| + FilesOf(entries)
    decreases |entries|
  {
    hide Archivable, AllDirs, IsAsRead, IsArchived, FilePaths, CountOf, NodeOf, WithinSize;
    if entries != [] {
      var w := entries[0];
      NodeIsAsRead(w);
      OneMoreFile(tree, w);
      TreeHolds(With(tree, w), entries[1..]);
      assert entries == [w] + entries[1..];
    }
  }

  /** What comes out of an archive, path by path: every entry that was read, as it was read, and nothing else. */
  lemma WhatComesOut(base: Path, entries: seq<Walked>, chunks: seq<seq<byte>>)
    requires Fits(map[], entries)
    requires forall w :: w in entries ==> WithinSize(w)
    requires Concat(chunks) == Archive(entries)
    ensures Extract(base, chunks).Ok?
    ensures var tree := Extract(base, chunks).value.tree;
      && (forall w :: w in entries && IsArchived(w) ==> w.path in tree && IsAsRead(tree[w.path], w))
      && (forall p :: p in tree ==> exists w :: w in entries && IsArchived(w) && w.path == p)
      && Extract(base, chunks).value.files == |FilePaths(tree)|
  {
    hide Extract, Fits, Archive, WithinSize, IsAsRead, IsArchived, TreeOf, FilesOf;
    RoundTrip(base, entries, chunks);
    TreeHolds(map[], entries);
    assert FilePaths(map[]) == {};
  }

  /** A backup that warns of nothing has everything the walk met: every file to the size it was opened with, byte for byte. */
  lemma NoWarningNothingMissing(base: Path, entries: seq<Walked>, warnings: seq<Warning>, chunks: seq<seq<byte>>)
    requires Fits(map[], entries)
    requires forall w :: w in entries ==> WithinSize(w)
    requires Concat(chunks) == Archive(entries) && SayWhatHappened(entries, warnings) && warnings == []
    ensures Extract(base, chunks).Ok?
    ensures var tree := Extract(base, chunks).value.tree;
      forall w :: w in entries ==>
        && w.path in tree
        && (w.WalkedDirectory? ==> tree[w.path] == Dir)
        && (w.WalkedFile? ==> w.reading.Read? && |Concat(w.reading.got)| == w.reading.size && tree[w.path] == File(Concat(w.reading.got)))
  {
    hide Extract, Fits, Archive, WithinSize, SayWhatHappened, Concat;
    WhatComesOut(base, entries, chunks);
    WhatIsSaid(entries, warnings);
    var tree := Extract(base, chunks).value.tree;
    forall w | w in entries && w.WalkedFile?
      ensures w.path in tree && w.reading.Read? && |Concat(w.reading.got)| == w.reading.size && tree[w.path] == File(Concat(w.reading.got))
    {
      assert ReadWhole(w);
    }
  }

  /** A stream cut short passes exactly when the first end block is whole, and then it holds the full tree. */
  lemma {:induction false} NoTruncatedArchivePasses(base: Path, entries: seq<Walked>, k: nat, chunks: seq<seq<byte>>)
    requires Fits(map[], entries)
    requires forall w :: w in entries ==> WithinSize(w)
    requires k <= |Archive(entries)| && Concat(chunks) == Archive(entries)[..k]
    ensures Extract(base, chunks).Ok? <==> k >= |Archive(entries)| - BLOCK
    ensures Extract(base, chunks).Ok? ==> Extract(base, chunks) == Ok(Whole(entries))
  {
    hide Extract, EntriesBytes, Fits, WithinSize, Whole;
    var written := EntriesBytes(entries);
    if k >= |Archive(entries)| - BLOCK {
      var tail := Zeros(k - |written|);
      assert Archive(entries)[..k] == written + tail;
      WholeRead(base, entries, tail, chunks);
    } else {
      CutShort(base, entries, k);
      CutsDoNotMatter(base, chunks);
    }
  }

  lemma BodyWaits(base: Path, r: Reader, dest: Path, size: nat, part: seq<byte>)
    requires size > 0 && |part| < size + PaddingOf(size) && !r.ended
    ensures var d := Drain(base, At(r.(current := Some(Body(dest, size, PaddingOf(size)))), part));
      d.Ok? && d.value.current.Some? && !d.value.ended
  {
    hide Appended, PathFromMetadata;
  }

  /** A stream that stops between two entries, or in a header, is said to have no end marker. */
  lemma StoppedBetweenEntries(base: Path, entries: seq<Walked>, part: seq<byte>, chunks: seq<seq<byte>>)
    requires Fits(map[], entries) && |part| < BLOCK
    requires forall w :: w in entries ==> WithinSize(w)
    requires Concat(chunks) == EntriesBytes(entries) + part
    ensures Extract(base, chunks) == Err(NoEndMarker)
  {
    hide EntriesBytes, Fits, WithinSize, Whole, Extract, Drain;
    CutsDoNotMatter(base, chunks);
    AfterEntries(base, entries, part);
    var r := At(START.(tree := Whole(entries).tree, files := Whole(entries).files), part);
    assert Step(base, r) == Wait(r);
    assert Drain(base, r) == Ok(r) by { DrainWaits(base, r); }
    ExtractOne(base, Concat(chunks), r);
  }

  lemma DrainWaits(base: Path, r: Reader)
    requires !r.ended && Step(base, r).Wait?
    ensures Drain(base, r) == Ok(Step(base, r).reader)
  {
    hide Step;
  }

  /** One that stops in a file or in its padding is said to have ended part way. */
  lemma StoppedInAFile(base: Path, entries: seq<Walked>, w: Walked, part: seq<byte>, chunks: seq<seq<byte>>)
    requires Fits(map[], entries + [w]) && w.WalkedFile? && w.reading.Read? && w.reading.size > 0
    requires (forall v :: v in entries ==> WithinSize(v)) && |part| < w.reading.size + PaddingOf(w.reading.size)
    requires Concat(chunks)
      == EntriesBytes(entries) + (Headers(Join(w.path, SLASH), w.reading.size, TYPE_FILE, w.reading.mode, w.reading.mtime) + part)
    ensures Extract(base, chunks) == Err(EndedPartWay)
  {
    hide EntriesBytes, Fits, WithinSize, Extract, Drain, Headers, Archivable, AllDirs, Admit, SafeJoin, MakeDirs, Join, Pow, Utf8Shaped, PaxRecord, PaddingOf;
    var size, rest := w.reading.size, Headers(Join(w.path, SLASH), w.reading.size, TYPE_FILE, w.reading.mode, w.reading.mtime) + part;
    FitsAreWithinSize(map[], entries + [w]);
    assert w in entries + [w];
    LastFits(map[], entries, w);
    CutsDoNotMatter(base, chunks);
    AfterEntries(base, entries, rest);
    var r := START.(tree := Whole(entries).tree, files := Whole(entries).files);
    FileFacts(w);
    NameIsClean(w);
    WrittenNameLands(base, w.path);
    HeadersRead(base, r, Join(w.path, SLASH), size, TYPE_FILE, w.reading.mode, w.reading.mtime, part);
    DirsAreThere(r.tree, w.path[..|w.path| - 1]);
    AdmitFile(base, At(r, part), Join(w.path, SLASH), w.path, size);
    BodyWaits(base, r.(tree := r.tree[w.path := File([])]), w.path, size, part);
    ExtractOne(base, Concat(chunks), Feed(base, START, Concat(chunks)).value);
  }

  lemma FileFacts(w: Walked)
    requires Archivable(w) && w.WalkedFile? && w.reading.Read?
    ensures w.path != [] && IsPath(w.path) && !StartsWithBackslash(w.path) && Utf8Shaped(Join(w.path, SLASH))
    ensures w.reading.size < Pow(8, 12) && |PaxRecord(PATH_KEY, Join(w.path, SLASH))| <= MAX_METADATA_BYTES
    ensures EntryName(w) == Join(w.path, SLASH)
  {
    hide Join, Pow, PaxRecord, Utf8Shaped, IsPath;
  }

  lemma {:induction false} LastFits(tree: Tree, entries: seq<Walked>, w: Walked)
    requires Fits(tree, entries + [w]) && WithinSize(w) && NodeOf(w).Some? && forall v :: v in entries ==> WithinSize(v)
    ensures Fits(tree, entries) && Archivable(w) && w.path !in TreeOf(tree, entries)
    ensures AllDirs(TreeOf(tree, entries), w.path[..|w.path| - 1])
    decreases |entries|
  {
    hide Archivable, AllDirs, With, WithinSize;
    var all := entries + [w];
    if entries == [] {
      assert all[0] == w;
    } else {
      assert all[0] == entries[0] && all[1..] == entries[1..] + [w];
      LastFits(With(tree, entries[0]), entries[1..], w);
    }
  }

  lemma Regrouped(a: seq<byte>, h: seq<byte>, g: seq<byte>, z: seq<byte>, p: seq<byte>, e: seq<byte>)
    ensures a + (h + ((g + z) + p)) + e == (a + h + g) + (z + p + e)
    ensures (a + (h + ((g + z) + p)) + e)[..|a + h + g|] == a + h + g
  {
  }

  /** What such a stream is a part of: the archive it would have been, had the file shrunk to what was read, up to the last byte
      that was. */
  lemma BrokenOffIsAPart(entries: seq<Walked>, path: Path, size: nat, got: seq<seq<byte>>, mode: nat, mtime: int)
    requires |Concat(got)| <= size && forall w :: w in entries ==> WithinSize(w)
    ensures var all := entries + [WalkedFile(path, Read(size, got, size, mode, mtime))];
      && (forall w :: w in all ==> WithinSize(w))
      && |BrokenOff(entries, path, size, got, mode, mtime)| == |Archive(all)| - 1024 - PaddingOf(size) - (size - |Concat(got)|)
      && Archive(all)[..|BrokenOff(entries, path, size, got, mode, mtime)|] == BrokenOff(entries, path, size, got, mode, mtime)
  {
    hide Headers, PaddingTo, EntriesBytes, Concat;
    var w := WalkedFile(path, Read(size, got, size, mode, mtime));
    EntriesSplit(entries, [w]);
    OneFile(w);
    PaddingSkips(size, []);
    Regrouped(EntriesBytes(entries), Headers(Join(path, SLASH), size, TYPE_FILE, mode, mtime), Concat(got),
              Zeros(size - |Concat(got)|), PaddingTo(size), Zeros(2 * BLOCK));
  }

  /** The stream of a generator that threw while it read a file is a part of an archive, so no reader takes it. */
  lemma {:induction false} BrokenOffDoesNotPass(base: Path, entries: seq<Walked>, path: Path, size: nat, got: seq<seq<byte>>,
                                                mode: nat, mtime: int, chunks: seq<seq<byte>>)
    requires |Concat(got)| <= size && Fits(map[], entries + [WalkedFile(path, Read(size, got, size, mode, mtime))])
    requires forall w :: w in entries ==> WithinSize(w)
    requires Concat(chunks) == BrokenOff(entries, path, size, got, mode, mtime)
    ensures Extract(base, chunks).Err?
  {
    hide Fits, Extract, Archive, BrokenOff, Concat, WithinSize;
    BrokenOffIsAPart(entries, path, size, got, mode, mtime);
    NoTruncatedArchivePasses(base, entries + [WalkedFile(path, Read(size, got, size, mode, mtime))],
                             |BrokenOff(entries, path, size, got, mode, mtime)|, chunks);
  }

  lemma OneFile(w: Walked)
    requires WithinSize(w) && w.WalkedFile? && w.reading.Read?
    ensures forall v :: v in [w] ==> WithinSize(v)
    ensures EntriesBytes([w]) == Headers(Join(w.path, SLASH), w.reading.size, TYPE_FILE, w.reading.mode, w.reading.mtime)
      + (ArchivedBytes(w.reading.size, w.reading.got) + PaddingTo(w.reading.size))
  {
    hide Headers, PaddingTo, ArchivedBytes;
    assert [w][1..] == [];
    assert EntriesBytes([]) == [];
  }

  /** Had the reader ended inside the prefix, the whole stream would have left more than one block unread: it leaves exactly one. */
  lemma CutShort(base: Path, entries: seq<Walked>, k: nat)
    requires Fits(map[], entries)
    requires forall w :: w in entries ==> WithinSize(w)
    requires k < |Archive(entries)| - BLOCK
    ensures Extract(base, [Archive(entries)[..k]]).Err?
  {
    hide Drain, Step, EntriesBytes, Fits, WithinSize, Archive, Whole;
    var stream := Archive(entries);
    var prefix, rest := stream[..k], stream[k..];
    assert prefix + rest == stream;
    match Feed(base, START, prefix)
    case Err(e) => ExtractFails(base, prefix, e);
    case Ok(r) =>
      ExtractOne(base, prefix, r);
      if r.ended {
        assert Plus(Plus(START, prefix), rest) == Plus(START, stream);
        DrainWithMore(base, Plus(START, prefix), rest);
        WholeLeavesOneBlock(base, entries);
        assert false;
      }
  }

  lemma ExtractFails(base: Path, stream: seq<byte>, e: Failure)
    requires Feed(base, START, stream) == Err(e)
    ensures Extract(base, [stream]) == Err(e)
  {
    hide Feed;
  }

  lemma WholeLeavesOneBlock(base: Path, entries: seq<Walked>)
    requires Fits(map[], entries)
    requires forall w :: w in entries ==> WithinSize(w)
    ensures var r := Feed(base, START, Archive(entries)); r.Ok? && |r.value.pending| == BLOCK
  {
    hide Drain, Step, EntriesBytes, Fits, WithinSize, Whole;
    AfterEntries(base, entries, Zeros(2 * BLOCK));
    EndRead(base, START.(tree := Whole(entries).tree, files := Whole(entries).files), Zeros(2 * BLOCK));
  }

  /* ── From a directory to its archive and back ────────────────────── */

  /** What a world holds while it is walked, with what becomes of each thing: a folder may be gone or refuse to be listed. */
  datatype Item =
    | Folder(mode: nat, mtime: int, inside: Listing)
    | Unlistable(mode: nat, mtime: int)
    | Vanished
    | Regular(reading: Reading)
    | Link
    | Special

  /** A directory's entries, in the order they are walked. */
  datatype Listing = Empty | Listed(name: Name, item: Item, rest: Listing)

  function Walk(at: Path, l: Listing): seq<Walked>
    decreases l
  {
    match l
    case Empty => []
    case Listed(name, item, rest) => WalkItem(at + [name], item) + Walk(at, rest)
  }

  function WalkItem(at: Path, item: Item): seq<Walked>
    decreases item
  {
    match item
    case Folder(mode, mtime, inside) => [WalkedDirectory(at, mode, mtime)] + Walk(at, inside)
    case Unlistable(mode, mtime) => [WalkedDirectory(at, mode, mtime), NotWalked(at)]
    case Regular(reading) => [WalkedFile(at, reading)]
    case Vanished => [NotWalked(at)]
    case Link => []
    case Special => []
  }

  predicate Holds(l: Listing, name: Name) { l.Listed? && (l.name == name || Holds(l.rest, name)) }

  /** A directory lists a name once. */
  predicate Proper(l: Listing)
    decreases l
  {
    l.Listed? ==>
      && IsName(l.name) && !Holds(l.rest, l.name)
      && (l.item.Folder? ==> Proper(l.item.inside))
      && (l.item.Regular? ==> WithinSize(WalkedFile([l.name], l.item.reading)))
      && Proper(l.rest)
  }

  /** What stands at a path below a directory, looked up name by name: directories, and the files that were read. */
  function Lookup(l: Listing, p: Path): Option<Node>
    requires Proper(l)
    decreases l
  {
    if p == [] || l.Empty? then None
    else if l.name != p[0] then Lookup(l.rest, p)
    else LookupItem(l.name, l.item, p[1..])
  }

  function LookupItem(name: Name, item: Item, p: Path): Option<Node>
    requires item.Folder? ==> Proper(item.inside)
    requires item.Regular? ==> WithinSize(WalkedFile([name], item.reading))
    decreases item
  {
    match item
    case Folder(_, _, inside) => if p == [] then Some(Dir) else Lookup(inside, p)
    case Unlistable(_, _) => if p == [] then Some(Dir) else None
    case Regular(Read(size, got, _, _, _)) => if p == [] then Some(File(ArchivedBytes(size, got))) else None
    case _ => None
  }

  /** What a tree holds at a path. */
  function NodeAt(tree: Tree, p: Path): Option<Node> { if p in tree then Some(tree[p]) else None }

  predicate Below(at: Path, p: Path) { |at| < |p| && p[..|at|] == at }

  /** No path of the tree is one this listing will add below `at`. */
  predicate Clear(tree: Tree, at: Path, l: Listing) {
    forall p :: p in tree && Below(at, p) ==> !Holds(l, p[|at|])
  }

  predicate Untaken(tree: Tree, at: Path) {
    forall p :: p in tree ==> p != at && !Below(at, p)
  }

  /** `t` is `tree` and, below `at`, what the listing holds. */
  ghost predicate Adds(tree: Tree, t: Tree, at: Path, l: Listing)
    requires Proper(l)
  {
    forall p :: NodeAt(t, p) ==
      if Below(at, p) && Lookup(l, p[|at|..]).Some? then Lookup(l, p[|at|..]) else NodeAt(tree, p)
  }

  /** `t` is `tree` and, at `at` and below, what the item is. */
  ghost predicate AddsItem(tree: Tree, t: Tree, at: Path, name: Name, item: Item)
    requires item.Folder? ==> Proper(item.inside)
    requires item.Regular? ==> WithinSize(WalkedFile([name], item.reading))
  {
    forall p :: NodeAt(t, p) ==
      if at <= p && LookupItem(name, item, p[|at|..]).Some? then LookupItem(name, item, p[|at|..]) else NodeAt(tree, p)
  }

  lemma {:induction false} TreeOfBoth(tree: Tree, a: seq<Walked>, b: seq<Walked>)
    requires forall w :: w in a + b ==> WithinSize(w)
    ensures (forall w :: w in a ==> WithinSize(w)) && (forall w :: w in b ==> WithinSize(w))
    ensures TreeOf(tree, a + b) == TreeOf(TreeOf(tree, a), b)
    decreases |a|
  {
    hide With, WithinSize;
    forall w | w in a ensures WithinSize(w) { assert w in a + b; }
    forall w | w in b ensures WithinSize(w) { assert w in a + b; }
    if a == [] {
      assert a + b == b;
    } else {
      assert (a + b)[1..] == a[1..] + b && (a + b)[0] == a[0];
      TreeOfBoth(With(tree, a[0]), a[1..], b);
    }
  }

  lemma {:induction false} FitsBoth(tree: Tree, a: seq<Walked>, b: seq<Walked>)
    requires Fits(tree, a)
    ensures forall w :: w in a ==> WithinSize(w)
    ensures Fits(TreeOf(tree, a), b) ==> Fits(tree, a + b)
    decreases |a|
  {
    hide With, Archivable, WithinSize;
    FitsAreWithinSize(tree, a);
    if a == [] {
      assert a + b == b;
    } else {
      assert (a + b)[1..] == a[1..] + b && (a + b)[0] == a[0];
      FitsBoth(With(tree, a[0]), a[1..], b);
    }
  }

  predicate AllArchivable(entries: seq<Walked>) { forall w :: w in entries ==> Archivable(w) }

  lemma OneEntry(tree: Tree, w: Walked)
    requires Archivable(w)
    requires NodeOf(w).Some? ==> w.path !in tree && AllDirs(tree, w.path[..|w.path| - 1])
    ensures Fits(tree, [w]) && TreeOf(tree, [w]) == With(tree, w)
  {
    hide With, Archivable, AllDirs;
    assert [w][1..] == [];
  }

  /** The walk of a listing fits, and adds exactly what the listing holds. */
  lemma {:induction false} WalkAdds(tree: Tree, at: Path, l: Listing)
    requires Proper(l) && AllDirs(tree, at) && Clear(tree, at, l) && AllArchivable(Walk(at, l))
    ensures Fits(tree, Walk(at, l))
    ensures forall w :: w in Walk(at, l) ==> WithinSize(w)
    ensures Adds(tree, TreeOf(tree, Walk(at, l)), at, l)
    decreases l
  {
    hide Archivable, With, Fits;
    match l
    case Empty => NothingFits(tree);
    case Listed(name, item, rest) =>
      var here := at + [name];
      var first, others := WalkItem(here, item), Walk(at, rest);
      ForThem(first, others);
      assert Untaken(tree, here) by { UntakenHere(tree, at, l); }
      ItemAdds(tree, here, name, item);
      var t := TreeOf(tree, first);
      StillClear(tree, t, at, l);
      WalkAdds(t, at, rest);
      FitsAreWithinSize(t, others);
      ForBoth(first, others);
      TreeOfBoth(tree, first, others);
      FitsBoth(tree, first, others);
      AddsBoth(tree, t, TreeOf(t, others), at, l);
  }

  lemma NothingFits(tree: Tree)
    ensures Fits(tree, [])
  {
  }

  lemma ForThem(a: seq<Walked>, b: seq<Walked>)
    requires AllArchivable(a + b)
    ensures AllArchivable(a) && AllArchivable(b)
  {
    forall w | w in a ensures Archivable(w) { assert w in a + b; }
    forall w | w in b ensures Archivable(w) { assert w in a + b; }
  }

  lemma ForBoth(a: seq<Walked>, b: seq<Walked>)
    requires (forall w :: w in a ==> WithinSize(w)) && (forall w :: w in b ==> WithinSize(w))
    ensures forall w :: w in a + b ==> WithinSize(w)
  {
  }

  lemma UntakenHere(tree: Tree, at: Path, l: Listing)
    requires l.Listed? && Clear(tree, at, l)
    ensures Untaken(tree, at + [l.name])
  {
    BelowHere(at, l.name);
  }

  lemma BelowHere(at: Path, name: Name)
    ensures forall p :: at + [name] <= p ==> Below(at, p) && p[|at|] == name
    ensures forall p :: Below(at + [name], p) ==> Below(at, p) && p[|at|] == name
  {
    forall p | Below(at + [name], p) ensures Below(at, p) && p[|at|] == name {
      assert p[..|at|] == p[..|at| + 1][..|at|];
    }
  }

  lemma StillClear(tree: Tree, t: Tree, at: Path, l: Listing)
    requires l.Listed? && Proper(l) && AllDirs(tree, at) && Clear(tree, at, l)
    requires AddsItem(tree, t, at + [l.name], l.name, l.item)
    ensures AllDirs(t, at) && Clear(t, at, l.rest)
  {
    hide LookupItem;
    var here := at + [l.name];
    forall i | 1 <= i <= |at| ensures at[..i] in t && t[at[..i]] == Dir {
      assert !(here <= at[..i]);
      assert NodeAt(t, at[..i]) == NodeAt(tree, at[..i]);
    }
    forall p | p in t && Below(at, p) ensures !Holds(l.rest, p[|at|]) {
      if here <= p {
        assert p[|at|] == l.name;
      } else {
        assert NodeAt(t, p) == NodeAt(tree, p);
      }
    }
  }

  lemma AddsBoth(tree: Tree, t: Tree, u: Tree, at: Path, l: Listing)
    requires l.Listed? && Proper(l)
    requires AddsItem(tree, t, at + [l.name], l.name, l.item) && Adds(t, u, at, l.rest)
    ensures Adds(tree, u, at, l)
  {
    hide LookupItem;
    var here := at + [l.name];
    forall p ensures NodeAt(u, p) ==
      if Below(at, p) && Lookup(l, p[|at|..]).Some? then Lookup(l, p[|at|..]) else NodeAt(tree, p)
    {
      if Below(at, p) {
        var q := p[|at|..];
        if q[0] == l.name {
          assert here <= p && p[|here|..] == q[1..];
          LookupElsewhere(l.rest, q);
        } else {
          assert !(here <= p);
        }
      } else {
        assert !(here <= p);
      }
    }
  }

  lemma {:induction false} LookupElsewhere(l: Listing, p: Path)
    requires Proper(l) && p != [] && !Holds(l, p[0])
    ensures Lookup(l, p) == None
    decreases l
  {
    if l.Listed? {
      LookupElsewhere(l.rest, p);
    }
  }

  lemma {:induction false} ItemAdds(tree: Tree, at: Path, name: Name, item: Item)
    requires item.Folder? ==> Proper(item.inside)
    requires item.Regular? ==> WithinSize(WalkedFile([name], item.reading))
    requires at != [] && AllDirs(tree, at[..|at| - 1]) && Untaken(tree, at) && AllArchivable(WalkItem(at, item))
    ensures Fits(tree, WalkItem(at, item))
    ensures forall w :: w in WalkItem(at, item) ==> WithinSize(w)
    ensures AddsItem(tree, TreeOf(tree, WalkItem(at, item)), at, name, item)
    decreases item
  {
    hide Archivable, Fits;
    match item
    case Folder(mode, mtime, inside) => FolderAdds(tree, at, name, item);
    case Unlistable(mode, mtime) =>
      UnlistableAdds(tree, at, name, item);
    case Regular(reading) =>
      assert WalkedFile(at, reading) in WalkItem(at, item);
      assert WithinSize(WalkedFile(at, reading)) by { ArchivableIsWithin(WalkedFile(at, reading)); }
      OneEntry(tree, WalkedFile(at, reading));
      PathItself(at);
    case Vanished =>
      assert NotWalked(at) in WalkItem(at, item);
      OneEntry(tree, NotWalked(at));
    case Link => NothingFits(tree);
    case Special => NothingFits(tree);
  }

  lemma UnlistableAdds(tree: Tree, at: Path, name: Name, item: Item)
    requires item.Unlistable? && at != [] && AllDirs(tree, at[..|at| - 1]) && Untaken(tree, at) && AllArchivable(WalkItem(at, item))
    ensures Fits(tree, WalkItem(at, item))
    ensures forall w :: w in WalkItem(at, item) ==> WithinSize(w)
    ensures AddsItem(tree, TreeOf(tree, WalkItem(at, item)), at, name, item)
  {
    hide Archivable, Fits;
    var w, v := WalkedDirectory(at, item.mode, item.mtime), NotWalked(at);
    assert WalkItem(at, item) == [w] + [v] && w in WalkItem(at, item) && v in WalkItem(at, item);
    OneEntry(tree, w);
    OneEntry(With(tree, w), v);
    TreeOfBoth(tree, [w], [v]);
    FitsBoth(tree, [w], [v]);
    PathItself(at);
  }

  lemma ArchivableIsWithin(w: Walked)
    requires Archivable(w)
    ensures WithinSize(w)
  {
  }

  lemma PathItself(at: Path)
    ensures forall p :: at <= p && p[|at|..] == [] ==> p == at
    ensures at[|at|..] == []
  {
    forall p | at <= p && p[|at|..] == [] ensures p == at {
      assert p == at + p[|at|..];
    }
  }

  lemma {:induction false} FolderAdds(tree: Tree, at: Path, name: Name, item: Item)
    requires item.Folder? && Proper(item.inside)
    requires at != [] && AllDirs(tree, at[..|at| - 1]) && Untaken(tree, at) && AllArchivable(WalkItem(at, item))
    ensures Fits(tree, WalkItem(at, item))
    ensures forall w :: w in WalkItem(at, item) ==> WithinSize(w)
    ensures AddsItem(tree, TreeOf(tree, WalkItem(at, item)), at, name, item)
    decreases item, 0
  {
    hide Archivable, Fits;
    var w := WalkedDirectory(at, item.mode, item.mtime);
    var others := Walk(at, item.inside);
    ForThem([w], others);
    assert w in [w];
    OneEntry(tree, w);
    var t := With(tree, w);
    assert t == tree[at := Dir];
    forall i | 1 <= i <= |at| ensures at[..i] in t && t[at[..i]] == Dir {
      if i < |at| {
        assert at[..i] == at[..|at| - 1][..i];
      } else {
        assert at[..i] == at;
      }
    }
    assert forall p :: p in t ==> !Below(at, p);
    WalkAdds(t, at, item.inside);
    ForBoth([w], others);
    TreeOfBoth(tree, [w], others);
    FitsBoth(tree, [w], others);
    FolderLookup(tree, TreeOf(t, others), at, name, item);
  }

  lemma FolderLookup(tree: Tree, u: Tree, at: Path, name: Name, item: Item)
    requires item.Folder? && Proper(item.inside) && Untaken(tree, at)
    requires Adds(tree[at := Dir], u, at, item.inside)
    ensures AddsItem(tree, u, at, name, item)
  {
    hide Lookup, Proper;
    PathItself(at);
    forall p ensures NodeAt(u, p) ==
      if at <= p && LookupItem(name, item, p[|at|..]).Some? then LookupItem(name, item, p[|at|..]) else NodeAt(tree, p)
    {
      if at <= p && p != at {
        assert p[|at|..] != [] && Below(at, p);
      } else {
        assert !Below(at, p);
      }
    }
  }

  /** A world archived while it lives, its archive cut into chunks anywhere and unpacked:
      every path holds what it held when it was read, and no other path holds anything. */
  lemma {:induction false} WorldRoundTrip(base: Path, world: Listing, chunks: seq<seq<byte>>)
    requires Proper(world) && AllArchivable(Walk([], world))
    ensures forall w :: w in Walk([], world) ==> WithinSize(w)
    ensures Concat(chunks) == Archive(Walk([], world)) ==>
      && Extract(base, chunks).Ok?
      && Extract(base, chunks).value.files == FilesOf(Walk([], world))
      && forall p :: NodeAt(Extract(base, chunks).value.tree, p) == Lookup(world, p)
  {
    hide Extract, Fits, Archivable;
    WalkAdds(map[], [], world);
    if Concat(chunks) == Archive(Walk([], world)) {
      RoundTrip(base, Walk([], world), chunks);
      forall p ensures NodeAt(Whole(Walk([], world)).tree, p) == Lookup(world, p) {
        assert p[..0] == [] && p[0..] == p;
      }
    }
  }

  /** Every folder was listed, and every file read to its size and not grown; links and special files are not part of a backup. */
  predicate Complete(l: Listing)
    decreases l
  {
    l.Listed? ==>
      && !l.item.Unlistable? && !l.item.Vanished?
      && (l.item.Folder? ==> Complete(l.item.inside))
      && (l.item.Regular? ==>
            l.item.reading.Read? && |Concat(l.item.reading.got)| == l.item.reading.size >= l.item.reading.sizeAfter)
      && Complete(l.rest)
  }

  predicate AllReadWhole(entries: seq<Walked>) { forall w :: w in entries ==> ReadWhole(w) }

  lemma WholeBoth(a: seq<Walked>, b: seq<Walked>)
    ensures AllReadWhole(a + b) <==> AllReadWhole(a) && AllReadWhole(b)
  {
    hide ReadWhole;
    if AllReadWhole(a + b) {
      forall w | w in a ensures ReadWhole(w) { assert w in a + b; }
      forall w | w in b ensures ReadWhole(w) { assert w in a + b; }
    }
  }

  lemma {:induction false} CompleteIsReadWhole(at: Path, l: Listing)
    ensures AllReadWhole(Walk(at, l)) <==> Complete(l)
    decreases l
  {
    hide ReadWhole, AllReadWhole;
    match l
    case Empty => OneWhole(NotWalked(at));
    case Listed(name, item, rest) =>
      var here := at + [name];
      WholeBoth(WalkItem(here, item), Walk(at, rest));
      CompleteIsReadWhole(at, rest);
      ItemIsReadWhole(here, item);
  }

  lemma {:induction false} ItemIsReadWhole(at: Path, item: Item)
    ensures AllReadWhole(WalkItem(at, item)) <==>
      && !item.Unlistable? && !item.Vanished?
      && (item.Folder? ==> Complete(item.inside))
      && (item.Regular? ==> item.reading.Read? && |Concat(item.reading.got)| == item.reading.size >= item.reading.sizeAfter)
    decreases item
  {
    hide AllReadWhole, Complete;
    match item
    case Folder(mode, mtime, inside) =>
      WholeBoth([WalkedDirectory(at, mode, mtime)], Walk(at, inside));
      OneWhole(WalkedDirectory(at, mode, mtime));
      CompleteIsReadWhole(at, inside);
    case Unlistable(mode, mtime) =>
      WholeBoth([WalkedDirectory(at, mode, mtime)], [NotWalked(at)]);
      assert WalkItem(at, item) == [WalkedDirectory(at, mode, mtime)] + [NotWalked(at)];
      OneWhole(NotWalked(at));
    case Regular(reading) => OneWhole(WalkedFile(at, reading));
    case Vanished => OneWhole(NotWalked(at));
    case Link => OneWhole(NotWalked(at));
    case Special => OneWhole(NotWalked(at));
  }

  lemma OneWhole(w: Walked)
    ensures AllReadWhole([w]) <==> ReadWhole(w)
    ensures AllReadWhole([])
  {
    hide ReadWhole;
    assert w in [w];
  }

  /** A backup of a world warns of nothing exactly when nothing of the world was missed; and then every file comes back byte for byte,
      every folder comes back, and nothing else does. */
  lemma NoWarningIffComplete(base: Path, world: Listing, warnings: seq<Warning>, chunks: seq<seq<byte>>)
    requires Proper(world) && AllArchivable(Walk([], world)) && SayWhatHappened(Walk([], world), warnings)
    ensures forall w :: w in Walk([], world) ==> WithinSize(w)
    ensures warnings == [] <==> Complete(world)
    ensures warnings == [] && Concat(chunks) == Archive(Walk([], world)) ==>
      && Extract(base, chunks).Ok?
      && (forall p :: NodeAt(Extract(base, chunks).value.tree, p) == Lookup(world, p))
      && forall w :: w in Walk([], world) ==>
           && w.path in Extract(base, chunks).value.tree
           && Extract(base, chunks).value.tree[w.path] == if w.WalkedFile? then File(Concat(w.reading.got)) else Dir
  {
    hide Extract, Fits, Archivable, SayWhatHappened, Complete, Archive, Walk;
    WalkAdds(map[], [], world);
    WhatIsSaid(Walk([], world), warnings);
    CompleteIsReadWhole([], world);
    if warnings == [] && Concat(chunks) == Archive(Walk([], world)) {
      WorldRoundTrip(base, world, chunks);
      NoWarningNothingMissing(base, Walk([], world), warnings, chunks);
    }
  }

  /** A header that says this kind, mode and time. */
  predicate Says(header: seq<byte>, kind: byte, mode: nat, mtime: int) {
    && |header| == 512 && header[156] == kind
    && AllDigits(header[100..107], 8) && Value(header[100..107], 8) == mode % 4096
    && (0 <= mtime < 8589934592 ==> AllDigits(header[136..147], 8) && Value(header[136..147], 8) == mtime)
  }

  /** The mode and the time a directory or a file was met with stand in its own header, the last before its bytes. */
  lemma HeadersCarryModeAndTime(w: Walked) returns (before: seq<byte>, header: seq<byte>, rest: seq<byte>)
    requires WithinSize(w) && IsArchived(w)
    ensures EntryBytes(w) == before + header + rest
    ensures w.WalkedDirectory? ==> Says(header, 53, w.mode, w.mtime) && rest == []
    ensures w.WalkedFile? ==> Says(header, 48, w.reading.mode, w.reading.mtime) && |rest| == w.reading.size + PaddingOf(w.reading.size)
  {
    hide HeaderBlock, PaxRecord, Headers, Join, Concat, Value, AllDigits;
    if w.WalkedDirectory? {
      before, header := ItsHeader(Join(w.path, SLASH) + [SLASH], 0, 53, w.mode, w.mtime);
      rest := [];
    } else {
      before, header := ItsHeader(Join(w.path, SLASH), w.reading.size, 48, w.reading.mode, w.reading.mtime);
      PaddingSkips(w.reading.size, []);
      rest := ArchivedBytes(w.reading.size, w.reading.got) + PaddingTo(w.reading.size);
    }
  }

  lemma ItsHeader(name: seq<byte>, size: nat, kind: byte, mode: nat, mtime: int) returns (before: seq<byte>, header: seq<byte>)
    ensures Headers(name, size, kind, mode, mtime) == before + header && Says(header, kind, mode, mtime)
  {
    hide HeaderBlock, PaxRecord, PaddingTo, Value, AllDigits;
    HeaderLayout(name, size, kind, mode, mtime);
    header := HeaderBlock(name, size, kind, mode, mtime);
    var headers := Headers(name, size, kind, mode, mtime);
    before := headers[..|headers| - 512];
  }

  /** In front of a long name's header stands one of its own, with the record that spells the name, filled to whole blocks. */
  lemma LongNamesHaveARecord(name: seq<byte>, size: nat, kind: byte, mode: nat, mtime: int) returns (digits: seq<byte>)
    requires |name| > 100
    ensures AllDigits(digits, 10)
    ensures var headers, record := Headers(name, size, kind, mode, mtime), digits + [32, 112, 97, 116, 104, 61] + name + [10];
      && Value(digits, 10) == |record|
      && |headers| == 1024 + |record| + PaddingOf(|record|)
      && Says(headers[..512], 120, 420, mtime)
      && headers[..14] == [46, 47, 46, 47, 64, 80, 97, 120, 72, 101, 97, 100, 101, 114]
      && headers[512..512 + |record|] == record
  {
    hide HeaderBlock, PaxRecord, Value, AllDigits, Says;
    var headers, record := Headers(name, size, kind, mode, mtime), PaxRecord(PATH_KEY, name);
    var first := HeaderBlock(PAX_NAME, |record|, TYPE_PAX, 0x1A4, mtime);
    PaddingSkips(|record|, []);
    assert headers[..512] == first;
    SaysSo(PAX_NAME, |record|, 120, 420, mtime);
    HeaderFields(PAX_NAME, |record|, TYPE_PAX, 0x1A4, mtime);
    assert first[..14] == first[..100][..14] == PAX_NAME;
    assert headers[..14] == headers[..512][..14];
    digits := RecordIsSpelled(name);
  }

  lemma SaysSo(name: seq<byte>, size: nat, kind: byte, mode: nat, mtime: int)
    ensures Says(HeaderBlock(name, size, kind, mode, mtime), kind, mode, mtime)
  {
    hide HeaderBlock, Value, AllDigits;
    HeaderLayout(name, size, kind, mode, mtime);
  }

  /* ── What can be archived ────────────────────────────────────────── */

  lemma {:induction false} JoinIsUtf8(p: Path)
    requires forall n :: n in p ==> Utf8Shaped(n)
    ensures Utf8Shaped(Join(p, SLASH))
    decreases |p|
  {
    hide Utf8Shaped;
    if p == [] {
      NothingIsUtf8();
    } else if |p| == 1 {
      assert p[0] in p;
    } else {
      assert p[0] in p;
      JoinIsUtf8(p[1..]);
      assert Utf8Shaped([SLASH]) by { OneIsUtf8(SLASH); }
      BothAreUtf8(p[0], [SLASH]);
      BothAreUtf8(p[0] + [SLASH], Join(p[1..], SLASH));
    }
  }

  lemma NothingIsUtf8()
    ensures Utf8Shaped([])
  {
  }

  lemma OneIsUtf8(b: byte)
    requires b < 128
    ensures Utf8Shaped([b])
  {
  }

  lemma BothAreUtf8(a: seq<byte>, b: seq<byte>)
    requires Utf8Shaped(a) && Utf8Shaped(b)
    ensures Utf8Shaped(a + b)
  {
    var all := a + b;
    forall i | 0 <= i < |all| && IsContinuation(all[i]) ensures HasStart(all, i) {
      if i < |a| {
        assert HasStart(a, i);
        var j :| Max(0, i - 3) <= j < i && !IsContinuation(a[j]);
        assert all[j] == a[j];
      } else {
        assert HasStart(b, i - |a|);
        var j :| Max(0, i - |a| - 3) <= j < i - |a| && !IsContinuation(b[j]);
        assert all[j + |a|] == b[j];
      }
    }
  }

  /** What a file system can hold can be archived, but for a first name with a backslash in front and files of 64 GiB and more. */
  lemma OrdinaryEntriesAreArchivable(w: Walked)
    requires WithinSize(w) && w.path != [] && IsPath(w.path) && w.path[0] != [] && w.path[0][0] != 92
    requires (forall n :: n in w.path ==> Utf8Shaped(n)) && |Join(w.path, SLASH)| < 500000
    requires w.WalkedFile? && w.reading.Read? ==> w.reading.size < 68719476736
    ensures Archivable(w)
  {
    hide Join, Utf8Shaped, PaxRecord, Pow;
    JoinIsUtf8(w.path);
    assert Utf8Shaped([SLASH]) by { OneIsUtf8(SLASH); }
    BothAreUtf8(Join(w.path, SLASH), [SLASH]);
    RecordIsShort(EntryName(w));
    assert Pow(8, 12) == 68719476736 by { EightToTheTwelfth(); }
  }

  lemma EightToTheTwelfth()
    ensures Pow(8, 12) == 68719476736
  {
    assert Pow(8, 4) == 4096;
    assert Pow(8, 8) == 4096 * 4096;
  }
}
