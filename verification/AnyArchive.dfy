/** Reading an archive that anybody may have written: what each kind of header does, and what every stream leaves, whole or
    broken, well made or not. */
module AnyArchive {
  import opened Bytes
  import opened TarFormat
  import opened Pax
  import opened ArchivePath
  import opened TarReader

  /* ── What a header is called ─────────────────────────────────────── */

  /** A field that holds a text: it is closed with NULs, or full. */
  predicate FieldHolds(field: seq<byte>, text: seq<byte>) {
    NUL !in text && |text| <= |field| && field == text + Zeros(|field| - |text|)
  }

  /** The name of an entry written by any tool: what its name field holds, below its prefix when the header is USTAR's and has one. */
  lemma HeaderNameIs(block: seq<byte>, prefix: seq<byte>, name: seq<byte>)
    requires |block| == 512 && FieldHolds(block[..100], name) && FieldHolds(block[345..500], prefix)
    ensures var ustar := forall i :: 0 <= i < 5 ==> block[257 + i] % 128 == [117, 115, 116, 97, 114][i];
      HeaderName(block) == if ustar && prefix != [] then prefix + [47] + name else name
  {
    hide CutAtNul;
    CutPadded(name, 100 - |name|);
    CutPadded(prefix, 155 - |prefix|);
    var magic: seq<byte> := [117, 115, 116, 97, 114];
    var field := Ascii(block[257..262]);
    assert forall i :: 0 <= i < 5 ==> field[i] == block[257 + i] % 128;
    if forall i :: 0 <= i < 5 ==> block[257 + i] % 128 == magic[i] {
      assert field == magic;
    }
  }

  /** An entry of metadata is no entry: it makes nothing, keeps the name that waits, and is refused above 1 MiB. Any other header is
      one: what it makes is named by the name that waits, or by itself. */
  lemma MetadataIsNoEntry(base: Path, r: Reader, block: seq<byte>)
    requires |block| == 512 && block[0] != 0 && r.current.None?
    ensures block[156] % 128 == 120 || block[156] % 128 == 103 || block[156] % 128 == 76 ==>
      var o := ReadHeader(base, r, block);
      if SizeOf(block) > 1048576 then o == Fail(MetadataTooLarge)
      else
        && o.More? && o.reader.tree == r.tree && o.reader.files == r.files && o.reader.longName == r.longName
        && o.reader.current.Some? && o.reader.current.value.Metadata?
    ensures block[156] % 128 != 120 && block[156] % 128 != 103 && block[156] % 128 != 76 ==>
      ReadHeader(base, r, block) ==
        Admit(base, r.(longName := None), if r.longName.Some? then r.longName.value else HeaderName(block), SizeOf(block), block[156] % 128)
  {
    hide HeaderName, SizeOf, Admit;
    assert r.longName.None? ==> r.(longName := None) == r;
  }

  /** The name a metadata entry gives the next entry: GNU's is its bytes up to the first NUL, and a global header gives none. */
  lemma MetadataNames(name: seq<byte>, more: seq<byte>)
    requires NUL !in name
    ensures PathFromMetadata(76, name) == Ok(Some(name)) == PathFromMetadata(76, name + [0] + more)
    ensures PathFromMetadata(103, more) == Ok(None)
  {
    hide IndexOf;
    assert forall i :: 0 <= i < |name| ==> name[i] in name;
    assert IndexOf(name, NUL, 0) == -1;
    var closed := name + [0] + more;
    assert closed[|name|] == 0 && forall i :: 0 <= i < |name| ==> closed[i] == name[i];
    assert IndexOf(closed, NUL, 0) == |name| && closed[..|name|] == name;
  }

  /** At the end of such an entry the next one has its name when the entry gives one; when it gives none, the name that waited waits. */
  lemma MetadataEnds(r: Reader, name: seq<byte>, more: seq<byte>)
    requires r.current.Some? && r.current.value.Metadata? && r.current.value.remaining <= 0 && NUL !in name
    requires |r.pending| >= r.current.value.padding
    ensures var m, next := r.current.value, r.(pending := r.pending[r.current.value.padding..], current := None);
      && (m.kind == 103 ==> Finish(r) == More(next))
      && (m.kind == 76 && m.collected == name + [0] + more ==> Finish(r) == More(next.(longName := Some(name))))
      && (m.kind == 120 && m.collected == [] ==> Finish(r) == More(next))
      && (m.kind == 120 && m.collected == PaxRecord(PATH_KEY, name) ==> Finish(r) == More(next.(longName := Some(name))))
  {
    hide IndexOf, PaxRecord, PathFromMetadata;
    MetadataNames(name, more);
    MetadataNames(name, r.current.value.collected);
    PathReadsBack(name);
    assert PathFromMetadata(120, []) == Ok(None) by { NothingNamed(); }
  }

  lemma NothingNamed()
    ensures PathFromMetadata(120, []) == Ok(None)
  {
  }

  /* ── What an entry makes ─────────────────────────────────────────── */

  /** A path itself, or one above it. */
  predicate LeadsTo(q: Path, p: Path) { q != [] && q <= p }

  predicate FileOnTheWay(tree: Tree, p: Path) { exists i :: 1 <= i <= |p| && p[..i] in tree && tree[p[..i]].File? }

  /** Directories are made all the way unless a file stands in it; what was there stays. */
  lemma {:induction false} MakeDirsIs(tree: Tree, p: Path)
    ensures FileOnTheWay(tree, p) ==> MakeDirs(tree, p) == Err(NotADirectory)
    ensures !FileOnTheWay(tree, p) ==>
      && MakeDirs(tree, p).Ok?
      && var t := MakeDirs(tree, p).value;
      && (forall q :: q in t <==> q in tree || LeadsTo(q, p))
      && (forall q :: q in t ==> t[q] == if LeadsTo(q, p) then Dir else tree[q])
    decreases |p|
  {
    if p != [] {
      var front := p[..|p| - 1];
      assert p[..|p|] == p && forall i :: 1 <= i <= |front| ==> front[..i] == p[..i];
      MakeDirsIs(tree, front);
      if FileOnTheWay(tree, front) {
        var i :| 1 <= i <= |front| && front[..i] in tree && tree[front[..i]].File?;
        assert p[..i] in tree && tree[p[..i]].File?;
      } else {
        assert forall q :: LeadsTo(q, p) <==> LeadsTo(q, front) || q == p by { ForAPrefix(p); }
      }
    }
  }

  lemma ForAPrefix(p: Path)
    requires p != []
    ensures forall q :: LeadsTo(q, p) <==> LeadsTo(q, p[..|p| - 1]) || q == p
  {
    forall q | LeadsTo(q, p) && q != p ensures LeadsTo(q, p[..|p| - 1]) { assert |q| < |p|; }
  }

  function ParentOf(p: Path): Path { if p == [] then [] else p[..|p| - 1] }

  /** A directory's entry makes it and those above it; any other entry makes an empty file, and those above it, however the name is
      spelled. A file in the way, or a directory where the file should be, ends the unpacking. */
  lemma EntryIs(base: Path, r: Reader, name: Name, size: int, kind: byte)
    requires SafeJoin(base, name).Ok?
    ensures var dest, o := SafeJoin(base, name).value, Admit(base, r, name, size, kind);
      if kind == 53 then
        if FileOnTheWay(r.tree, dest) then o == Fail(NotADirectory)
        else
          && o.More? && o.reader == r.(tree := o.reader.tree)
          && (forall q :: q in o.reader.tree <==> q in r.tree || LeadsTo(q, dest))
          && (forall q :: q in o.reader.tree ==> o.reader.tree[q] == if LeadsTo(q, dest) then Dir else r.tree[q])
      else if FileOnTheWay(r.tree, ParentOf(dest)) then o == Fail(NotADirectory)
      else if dest == [] || (dest in r.tree && r.tree[dest].Dir?) then o == Fail(IsADirectory)
      else
        && o.More? && o.reader.pending == r.pending && o.reader.longName == r.longName && o.reader.ended == r.ended
        && (forall q :: q in o.reader.tree <==> q in r.tree || LeadsTo(q, dest))
        && (forall q :: q in o.reader.tree ==>
              o.reader.tree[q] == if q == dest then File([]) else if LeadsTo(q, dest) then Dir else r.tree[q])
        && (if size == 0 then o.reader.current == r.current && o.reader.files == r.files + 1
            else o.reader.files == r.files && o.reader.current == Some(Body(dest, size, PaddingOf(size))))
  {
    hide SafeJoin, MakeDirs;
    var dest := SafeJoin(base, name).value;
    MakeDirsIs(r.tree, dest);
    MakeDirsIs(r.tree, ParentOf(dest));
    if dest != [] { ForAPrefix(dest); }
  }

  /* ── Every state of every stream ─────────────────────────────────── */

  /** Every path is one of names, and what is above it is a directory. */
  predicate IsTree(tree: Tree) {
    forall p :: p in tree ==> p != [] && IsPath(p) && forall i :: 1 <= i < |p| ==> p[..i] in tree && tree[p[..i]] == Dir
  }

  /** What was a directory is one, what was a file is one. */
  predicate KindsStay(a: Tree, b: Tree) { forall p :: p in a ==> p in b && (a[p].Dir? <==> b[p].Dir?) }

  predicate InOrder(r: Reader) {
    && IsTree(r.tree)
    && (r.current.Some? ==>
          match r.current.value
          case Body(dest, _, padding) => padding < 512 && dest in r.tree && r.tree[dest].File?
          case Metadata(_, collected, remaining, padding) => padding < 512 && |collected| + Max(0, remaining) <= 1048576)
  }

  lemma PaddingIsLess(size: int)
    ensures PaddingOf(size) < 512
  {
  }

  lemma PathsOnTheWay(tree: Tree, dest: Path, t: Tree)
    requires IsTree(tree) && IsPath(dest)
    requires forall q :: q in t <==> q in tree || LeadsTo(q, dest)
    requires forall q :: q in t && q != dest ==> t[q] == if LeadsTo(q, dest) then Dir else tree[q]
    requires forall q :: q in tree && LeadsTo(q, dest) && q != dest ==> tree[q] == Dir
    requires dest in t && dest in tree ==> (t[dest].Dir? <==> tree[dest].Dir?)
    requires dest in t && t[dest].File? ==> dest !in tree || tree[dest].File?
    ensures IsTree(t) && KindsStay(tree, t)
  {
    forall p | p in t
      ensures p != [] && IsPath(p) && forall i :: 1 <= i < |p| ==> p[..i] in t && t[p[..i]] == Dir
    {
      if p in tree {
        forall i | 1 <= i < |p| ensures p[..i] in t && t[p[..i]] == Dir { assert p[..i] in tree && tree[p[..i]] == Dir; }
      } else {
        assert p <= dest;
        forall i | 1 <= i < |p| ensures p[..i] in t && t[p[..i]] == Dir { assert p[..i] <= dest && p[..i] != dest; }
        forall n | n in p ensures n in dest { var i :| 0 <= i < |p| && p[i] == n; assert dest[i] == n; }
      }
    }
  }

  lemma AdmitKeeps(base: Path, r: Reader, name: Name, size: int, kind: byte)
    requires IsPath(base) && InOrder(r) && r.current.None?
    ensures match Admit(base, r, name, size, kind)
            case More(next) => InOrder(next) && KindsStay(r.tree, next.tree)
            case _ => true
  {
    hide SafeJoin, Admit, IsTree, KindsStay, IsPath;
    if SafeJoin(base, name).Ok? {
      var dest, o := SafeJoin(base, name).value, Admit(base, r, name, size, kind);
      LandsBelow(base, name);
      EntryIs(base, r, name, size, kind);
      PaddingIsLess(size);
      if o.More? {
        NoFileBefore(r.tree, dest, kind == 53);
        PathsOnTheWay(r.tree, dest, o.reader.tree);
      }
    } else {
      AdmitFails(base, r, name, size, kind);
    }
  }

  lemma AdmitFails(base: Path, r: Reader, name: Name, size: int, kind: byte)
    requires SafeJoin(base, name).Err?
    ensures Admit(base, r, name, size, kind).Fail?
  {
    hide SafeJoin;
  }

  lemma NoFileBefore(tree: Tree, dest: Path, whole: bool)
    requires if whole then !FileOnTheWay(tree, dest) else !FileOnTheWay(tree, ParentOf(dest))
    ensures forall q :: q in tree && LeadsTo(q, dest) && (whole || q != dest) ==> tree[q] == Dir
  {
    forall q | q in tree && LeadsTo(q, dest) && (whole || q != dest) ensures tree[q] == Dir {
      assert q == dest[..|q|];
      if !whole { assert |q| < |dest| && ParentOf(dest)[..|q|] == q; }
    }
  }

  lemma TakeIsInOrder(r: Reader)
    requires InOrder(r) && r.current.Some? && r.current.value.remaining > 0
    ensures InOrder(Take(r)) && KindsStay(r.tree, Take(r).tree)
  {
    hide IsPath;
    var t := Take(r);
    if r.current.value.Body? {
      var dest := r.current.value.dest;
      assert t.tree.Keys == r.tree.Keys;
      forall p | p in t.tree ensures p != [] && IsPath(p) && forall i :: 1 <= i < |p| ==> p[..i] in t.tree && t.tree[p[..i]] == Dir {
        forall i | 1 <= i < |p| ensures p[..i] in t.tree && t.tree[p[..i]] == Dir { assert p[..i] in r.tree && r.tree[p[..i]] == Dir; }
      }
    }
  }

  lemma FinishKeeps(r: Reader)
    requires InOrder(r) && r.current.Some?
    ensures match Finish(r)
            case Fail(_) => true
            case Wait(next) => InOrder(next) && next.tree == r.tree && |next.pending| < 512
            case More(next) => InOrder(next) && next.tree == r.tree
  {
    hide PathFromMetadata, IsTree;
  }

  lemma HeaderKeeps(base: Path, r: Reader, block: seq<byte>)
    requires IsPath(base) && InOrder(r) && r.current.None? && |block| == 512
    ensures match ReadHeader(base, r, block)
            case More(next) => InOrder(next) && KindsStay(r.tree, next.tree)
            case _ => true
  {
    hide HeaderName, SizeOf, Admit, IsTree, IsPath, KindsStay;
    KindsStayThemselves(r.tree);
    PaddingIsLess(SizeOf(block));
    if block[0] != 0 {
      AdmitKeeps(base, r.(longName := None), if r.longName.Some? then r.longName.value else HeaderName(block), SizeOf(block), KindOf(block));
      MetadataIsNoEntry(base, r, block);
    }
  }

  lemma KindsStayThemselves(tree: Tree)
    ensures KindsStay(tree, tree)
  {
  }

  lemma KindsStayOn(a: Tree, b: Tree, c: Tree)
    requires KindsStay(a, b) && KindsStay(b, c)
    ensures KindsStay(a, c)
  {
  }

  lemma StepKeeps(base: Path, r: Reader)
    requires IsPath(base) && InOrder(r) && !r.ended
    ensures match Step(base, r)
            case Fail(_) => true
            case Wait(next) => InOrder(next) && KindsStay(r.tree, next.tree) && |next.pending| < 512
            case More(next) => InOrder(next) && KindsStay(r.tree, next.tree)
  {
    hide IsPath, InOrder, KindsStay, Finish, ReadHeader;
    KindsStayThemselves(r.tree);
    if r.current.Some? {
      if r.current.value.remaining > 0 {
        TakeIsInOrder(r);
        if Take(r).current.value.remaining <= 0 { FinishKeeps(Take(r)); }
      } else {
        FinishKeeps(r);
      }
    } else if |r.pending| >= BLOCK {
      var rest := r.(pending := r.pending[BLOCK..]);
      assert InOrder(rest) by { SameOrder(r, rest); }
      HeaderKeeps(base, rest, r.pending[..BLOCK]);
    }
  }

  lemma SameOrder(a: Reader, b: Reader)
    requires InOrder(a) && b.tree == a.tree && b.current == a.current
    ensures InOrder(b)
  {
  }

  lemma {:induction false} DrainKeeps(base: Path, r: Reader)
    requires IsPath(base) && InOrder(r)
    ensures match Drain(base, r)
            case Err(_) => true
            case Ok(next) => InOrder(next) && KindsStay(r.tree, next.tree) && (next.ended || |next.pending| < 512)
    decreases |r.pending|, Busy(r)
  {
    hide IsPath, InOrder, KindsStay, Step;
    if r.ended {
      KindsStayThemselves(r.tree);
    } else {
      StepKeeps(base, r);
      match Step(base, r)
      case Fail(_) =>
      case Wait(_) =>
      case More(next) =>
        StepShrinks(base, r);
        DrainKeeps(base, next);
        if Drain(base, next).Ok? { KindsStayOn(r.tree, next.tree, Drain(base, next).value.tree); }
    }
  }

  /** Whatever bytes a stream brings, in whatever chunks: between any two of them what was unpacked is a tree of plain paths below
      the directory, nothing has changed from a file to a directory or back, and the reader holds less than a block that it has
      not read, and of a metadata entry no more than 1 MiB. */
  lemma {:induction false} AnyStream(base: Path, r: Reader, chunks: seq<seq<byte>>)
    requires IsPath(base) && InOrder(r) && (r.ended || |r.pending| < 512)
    ensures match FeedAll(base, r, chunks)
            case Err(_) => true
            case Ok(next) => InOrder(next) && KindsStay(r.tree, next.tree) && (next.ended || |next.pending| < 512)
    decreases |chunks|
  {
    hide IsPath, InOrder, KindsStay, Drain;
    if chunks == [] {
      KindsStayThemselves(r.tree);
    } else if r.ended {
      AnyStream(base, r, chunks[1..]);
    } else {
      assert InOrder(Plus(r, chunks[0])) by { SameOrder(r, Plus(r, chunks[0])); }
      DrainKeeps(base, Plus(r, chunks[0]));
      match Drain(base, Plus(r, chunks[0]))
      case Err(_) =>
      case Ok(next) =>
        AnyStream(base, next, chunks[1..]);
        if FeedAll(base, next, chunks[1..]).Ok? { KindsStayOn(r.tree, next.tree, FeedAll(base, next, chunks[1..]).value.tree); }
    }
  }

  /** Of any archive at all that is taken, the result is a tree of plain paths. */
  lemma AnyArchiveIsATree(base: Path, chunks: seq<seq<byte>>)
    requires IsPath(base) && Extract(base, chunks).Ok?
    ensures IsTree(Extract(base, chunks).value.tree)
  {
    hide IsTree, FeedAll, KindsStay;
    assert InOrder(START) by { NothingIsInOrder(); }
    AnyStream(base, START, chunks);
  }

  lemma NothingIsInOrder()
    ensures InOrder(START)
  {
  }
}
