/** A restore that exchanges one world for another by renames, the sweep that repairs what a kill left of it,
    and what a failure may say about the world. The disk is what stands directly under the data root. */
module Exchange {
  import opened Bytes
  import opened ArchivePath
  import opened TarReader
  import opened LeftoverNames

  /** A directory, and when anything in it last changed. */
  datatype Folder = Folder(content: Tree, newest: int)
  type Disk = map<Name, Folder>

  /* ── What a crash may find ───────────────────────────────────────── */

  ghost predicate NoAside(d: Disk, server: Name) {
    forall n :: n in d ==> Classify(n) != AsideOf(server)
  }

  /** One world is set aside, and it is whole. */
  ghost predicate OneAside(d: Disk, server: Name, world: Tree) {
    exists n :: n in d && IsTheAside(d, server, world, n)
  }

  ghost predicate IsTheAside(d: Disk, server: Name, world: Tree, n: Name)
    requires n in d
  {
    && Classify(n) == AsideOf(server) && d[n].content == world
    && forall m :: m in d && Classify(m) == AsideOf(server) ==> m == n
  }

  /** The server has the whole new world, or the whole old one, in its place or set aside for it. */
  ghost predicate Safe(d: Disk, server: Name, was: Option<Tree>, new': Tree) {
    if server in d then
      d[server].content == new' || (was == Some(d[server].content) && NoAside(d, server))
    else
      match was
      case None => NoAside(d, server)
      case Some(world) => OneAside(d, server, world)
  }

  /** The two disks differ at most in what stands at one name. */
  ghost predicate Elsewhere(a: Disk, b: Disk, name: Name) {
    forall n :: n != name ==> FolderAt(a, n) == FolderAt(b, n)
  }

  function ContentAt(d: Disk, name: Name): Option<Tree> { if name in d then Some(d[name].content) else None }

  function FolderAt(d: Disk, name: Name): Option<Folder> { if name in d then Some(d[name]) else None }

  function Moved(d: Disk, from: Name, to: Name): Disk
    requires from in d
  {
    (d - {from})[to := d[from]]
  }

  /** rm of a directory is not one step: what it leaves on the way, and whether it gets to the end. */
  datatype Removal = Removal(along: seq<Folder>, done: bool)

  /* ── What calls do ───────────────────────────────────────────────── */

  /** How a call, or a row of them, went: the directories it left, every state on the way, and whether it succeeded.
      A process that is killed stops at one of the states, or before the first. */
  datatype Ran = Ran(disk: Disk, trail: seq<Disk>, ok: bool)

  function Nothing(d: Disk): Ran { Ran(d, [], true) }

  function Then(a: Ran, b: Ran): Ran { Ran(b.disk, a.trail + b.trail, b.ok) }

  function MkdirRan(d: Disk, name: Name, newest: int, io: bool): Ran {
    var made := if io && name !in d then d[name := Folder(map[], newest)] else d;
    Ran(made, [made], io)
  }

  /** Writing into a directory, or taking things out of it, one state after another. */
  function FillRan(d: Disk, name: Name, along: seq<Folder>): Ran {
    Ran(if along == [] then d else d[name := along[|along| - 1]],
        seq(|along|, i requires 0 <= i < |along| => d[name := along[i]]), true)
  }

  /** rename: over nothing, or over an empty directory. */
  function RenameRan(d: Disk, from: Name, to: Name, io: bool): Ran {
    var ok := io && from in d && (to in d ==> d[to].content == map[]);
    var moved := if ok then Moved(d, from, to) else d;
    Ran(moved, [moved], ok)
  }

  /** rm with recursive and force: a name that is not there is no error. */
  function RemoveRan(d: Disk, name: Name, io: Removal): Ran {
    if name !in d then Nothing(d)
    else
      var emptied := FillRan(d, name, io.along);
      if io.done then Then(emptied, Ran(emptied.disk - {name}, [emptied.disk - {name}], true))
      else emptied.(ok := false)
  }

  /** The directories under the data root, and every state they have been in. */
  class DataRoot {
    var dirs: Disk
    var trail: seq<Disk>

    constructor (d: Disk)
      ensures dirs == d && trail == [d]
    {
      dirs, trail := d, [d];
    }

    /** Every change to the directories goes through here, and is a state a kill may stop at. */
    method Become(d: Disk)
      modifies this
      ensures dirs == d && trail == old(trail) + [d]
    {
      dirs, trail := d, trail + [d];
    }

    method Mkdir(name: Name, newest: int, io: bool) returns (ok: bool)
      modifies this
      ensures Ran(dirs, trail, ok) == Then(Ran(old(dirs), old(trail), true), MkdirRan(old(dirs), name, newest, io))
    {
      ok := io;
      if io && name !in dirs { Become(dirs[name := Folder(map[], newest)]); } else { Become(dirs); }
    }

    method Fill(name: Name, along: seq<Folder>)
      modifies this
      ensures Ran(dirs, trail, true) == Then(Ran(old(dirs), old(trail), true), FillRan(old(dirs), name, along))
    {
      var i := 0;
      while i < |along|
        invariant 0 <= i <= |along|
        invariant Ran(dirs, trail, true) == Then(Ran(old(dirs), old(trail), true), FillRan(old(dirs), name, along[..i]))
      {
        FillOneMore(old(dirs), name, along[..i], along[i]);
        assert along[..i + 1] == along[..i] + [along[i]];
        Become(dirs[name := along[i]]);
        i := i + 1;
      }
      assert along[..i] == along;
    }

    method Rename(from: Name, to: Name, io: bool) returns (ok: bool)
      modifies this
      ensures Ran(dirs, trail, ok) == Then(Ran(old(dirs), old(trail), true), RenameRan(old(dirs), from, to, io))
    {
      ok := io && from in dirs && (to in dirs ==> dirs[to].content == map[]);
      if ok { Become(Moved(dirs, from, to)); } else { Become(dirs); }
    }

    method Remove(name: Name, io: Removal) returns (ok: bool)
      modifies this
      ensures Ran(dirs, trail, ok) == Then(Ran(old(dirs), old(trail), true), RemoveRan(old(dirs), name, io))
    {
      if name !in dirs { return true; }
      Fill(name, io.along);
      if io.done { Become(dirs - {name}); }
      ok := io.done;
    }
  }

  lemma FillOneMore(d: Disk, name: Name, along: seq<Folder>, next: Folder)
    ensures FillRan(d, name, along + [next]) == Then(FillRan(d, name, along), Ran(FillRan(d, name, along).disk[name := next], [d[name := next]], true))
    ensures FillRan(d, name, along).disk[name := next] == d[name := next]
  {
  }

  /** Everything happens at one name. */
  ghost predicate At(r: Ran, d: Disk, name: Name) {
    Elsewhere(r.disk, d, name) && forall i :: 0 <= i < |r.trail| ==> Elsewhere(r.trail[i], d, name)
  }

  lemma FillIsAt(d: Disk, name: Name, along: seq<Folder>)
    ensures At(FillRan(d, name, along), d, name)
    ensures name in d || along != [] ==> name in FillRan(d, name, along).disk
  {
  }

  lemma RemoveIsAt(d: Disk, name: Name, io: Removal)
    ensures At(RemoveRan(d, name, io), d, name)
    ensures RemoveRan(d, name, io).ok <==> io.done || name !in d
    ensures RemoveRan(d, name, io).ok <==> name !in RemoveRan(d, name, io).disk
  {
    FillIsAt(d, name, io.along);
  }

  /* ── The exchange ────────────────────────────────────────────────── */

  datatype Stage = Untouched | Incomplete
  datatype Ending = Restored | Thrown(code: Option<Stage>)

  /** How each call of a swapped restore goes. `new'` is what the archive unpacks to when it unpacks whole. */
  datatype Script = Script(
    mkdir: bool,
    unpacking: seq<Folder>,
    unpacked: bool,
    new': Folder,
    dropStaging: Removal,
    statTells: bool,
    setAside: bool,
    putInPlace: bool,
    putBack: bool,
    dropAside: Removal)

  /** Whether the two renames go through: a world that is there has to be seen and moved aside, unless it is empty. */
  predicate Exchanges(d: Disk, server: Name, s: Script) {
    s.putInPlace && (server in d ==> if s.statTells then s.setAside else d[server].content == map[])
  }

  ghost predicate OnlyThese(a: Disk, b: Disk, x: Name, y: Name, z: Name) {
    forall n :: n != x && n != y && n != z ==> FolderAt(a, n) == FolderAt(b, n)
  }

  /** A restore that ended: what is there, every state on the way, and what it said. */
  datatype Ended = Ended(disk: Disk, trail: seq<Disk>, ending: Ending)

  /** Making the staging directory and unpacking into it. */
  function UnpackRan(d: Disk, staging: Name, s: Script): Ran {
    var made := MkdirRan(d, staging, s.new'.newest, s.mkdir);
    if !made.ok then made
    else Then(made, FillRan(made.disk, staging, s.unpacking + (if s.unpacked then [s.new'] else [])).(ok := s.unpacked))
  }

  /** The world to its aside, when there is one, and what was unpacked to its place. */
  function RenamesRan(d: Disk, server: Name, staging: Name, aside: Name, hadWorld: bool, s: Script): Ran {
    var first := if hadWorld then RenameRan(d, server, aside, s.setAside) else Nothing(d);
    if !first.ok then first else Then(first, RenameRan(first.disk, staging, server, s.putInPlace))
  }

  /** A failed exchange: the old world is moved back, and the staging directory goes. */
  function PutBackRan(d: Disk, server: Name, staging: Name, aside: Name, hadWorld: bool, s: Script): Ended {
    var back := if hadWorld then RenameRan(d, aside, server, s.putBack) else Nothing(d);
    var dropped := RemoveRan(back.disk, staging, s.dropStaging);
    Ended(dropped.disk, back.trail + dropped.trail,
          Thrown(if !dropped.ok then None else Some(if back.ok then Untouched else Incomplete)))
  }

  function After(r: Ran, e: Ended): Ended { e.(trail := r.trail + e.trail) }

  /** The two renames, what undoes the first when the second fails, and the removal of the old world, which may fail. */
  function SwapRan(d: Disk, server: Name, staging: Name, aside: Name, s: Script): Ended {
    var hadWorld := s.statTells && server in d;
    var renamed := RenamesRan(d, server, staging, aside, hadWorld, s);
    if !renamed.ok then After(renamed, PutBackRan(renamed.disk, server, staging, aside, hadWorld, s))
    else
      var dropped := if hadWorld then RemoveRan(renamed.disk, aside, s.dropAside) else Nothing(renamed.disk);
      After(renamed, Ended(dropped.disk, dropped.trail, Restored))
  }

  /** The whole of a swapped restore. */
  function RestoreRan(d: Disk, server: Name, suffix: seq<byte>, s: Script): Ended {
    var staging, aside := StagingName(server, suffix), AsideName(server, suffix);
    var unpacked := UnpackRan(d, staging, s);
    if unpacked.ok then After(unpacked, SwapRan(unpacked.disk, server, staging, aside, s))
    else
      var dropped := RemoveRan(unpacked.disk, staging, s.dropStaging);
      After(unpacked, Ended(dropped.disk, dropped.trail, Thrown(if dropped.ok then Some(Untouched) else None)))
  }

  /** The restore, call by call. */
  method RestoreSwapped(root: DataRoot, server: Name, suffix: seq<byte>, s: Script) returns (o: Ending)
    modifies root
    ensures Ended(root.dirs, root.trail, o)
         == After(Ran(old(root.dirs), old(root.trail), true), RestoreRan(old(root.dirs), server, suffix, s))
  {
    hide StagingName, AsideName, MkdirRan, FillRan, RemoveRan, SwapRan;
    var staging, aside := StagingName(server, suffix), AsideName(server, suffix);
    var unpacked := root.Mkdir(staging, s.new'.newest, s.mkdir);
    if unpacked {
      root.Fill(staging, s.unpacking + (if s.unpacked then [s.new'] else []));
      unpacked := s.unpacked;
    }
    assert Ran(root.dirs, root.trail, unpacked) == Then(Ran(old(root.dirs), old(root.trail), true), UnpackRan(old(root.dirs), staging, s));
    if !unpacked {
      var dropped := root.Remove(staging, s.dropStaging);
      return Thrown(if dropped then Some(Untouched) else None);
    }
    o := Swap(root, server, staging, aside, s);
  }

  method Swap(root: DataRoot, server: Name, staging: Name, aside: Name, s: Script) returns (o: Ending)
    modifies root
    ensures Ended(root.dirs, root.trail, o)
         == After(Ran(old(root.dirs), old(root.trail), true), SwapRan(old(root.dirs), server, staging, aside, s))
  {
    hide RenameRan, RemoveRan;
    var hadWorld := s.statTells && server in root.dirs;
    var exchanged := true;
    if hadWorld { exchanged := root.Rename(server, aside, s.setAside); }
    if exchanged { exchanged := root.Rename(staging, server, s.putInPlace); }
    assert Ran(root.dirs, root.trail, exchanged)
        == Then(Ran(old(root.dirs), old(root.trail), true), RenamesRan(old(root.dirs), server, staging, aside, hadWorld, s));
    if !exchanged {
      o := PutBack(root, server, staging, aside, hadWorld, s);
      return;
    }
    if hadWorld { var _ := root.Remove(aside, s.dropAside); }
    o := Restored;
  }

  method PutBack(root: DataRoot, server: Name, staging: Name, aside: Name, hadWorld: bool, s: Script) returns (o: Ending)
    modifies root
    ensures Ended(root.dirs, root.trail, o)
         == After(Ran(old(root.dirs), old(root.trail), true), PutBackRan(old(root.dirs), server, staging, aside, hadWorld, s))
  {
    hide RenameRan, RemoveRan;
    var restored := true;
    if hadWorld { restored := root.Rename(aside, server, s.putBack); }
    var dropped := root.Remove(staging, s.dropStaging);
    if !dropped { return Thrown(None); }
    return Thrown(Some(if restored then Untouched else Incomplete));
  }

  /* ── Every state is safe ─────────────────────────────────────────── */

  lemma SafeElsewhere(a: Disk, b: Disk, name: Name, server: Name, was: Option<Tree>, new': Tree)
    requires Safe(b, server, was, new') && Elsewhere(a, b, name)
    requires name != server && Classify(name) != AsideOf(server)
    ensures Safe(a, server, was, new')
  {
    hide Classify;
    assert FolderAt(a, server) == FolderAt(b, server);
    assert forall n :: n in a && n != name ==> FolderAt(a, n) == FolderAt(b, n);
    if server !in b && was.Some? {
      var n :| n in b && IsTheAside(b, server, was.value, n);
      assert FolderAt(a, n) == FolderAt(b, n);
      assert IsTheAside(a, server, was.value, n);
    }
  }

  lemma SafeWithNew(a: Disk, server: Name, was: Option<Tree>, new': Tree)
    requires server in a && a[server].content == new'
    ensures Safe(a, server, was, new')
  {
  }

  ghost predicate AllSafe(trail: seq<Disk>, server: Name, was: Option<Tree>, new': Tree) {
    forall i :: 0 <= i < |trail| ==> Safe(trail[i], server, was, new')
  }

  ghost predicate AllOnly(trail: seq<Disk>, d: Disk, x: Name, y: Name, z: Name) {
    forall i :: 0 <= i < |trail| ==> OnlyThese(trail[i], d, x, y, z)
  }

  /** The names of one exchange: the world, what is unpacked beside it, and where the old one waits. */
  ghost predicate Names(server: Name, staging: Name, aside: Name) {
    && server != staging && server != aside && staging != aside
    && Classify(server) == Plain && Classify(staging) == StagingOf(server) && Classify(aside) == AsideOf(server)
  }

  lemma NamesOfExchange(server: Name, suffix: seq<byte>)
    requires IsServer(server) && IsSuffix(suffix)
    ensures Names(server, StagingName(server, suffix), AsideName(server, suffix))
  {
    hide Classify, StagingName, AsideName;
    NamesReadBack(server, suffix);
  }

  /** Once the old world is set aside, it is the one thing the sweep will find. */
  lemma SafeSetAside(d: Disk, server: Name, aside: Name, new': Tree)
    requires server in d && aside != server && Classify(aside) == AsideOf(server) && NoAside(d, server)
    ensures Safe(Moved(d, server, aside), server, Some(d[server].content), new')
  {
    hide Classify;
    assert IsTheAside(Moved(d, server, aside), server, d[server].content, aside);
  }

  lemma StillNoAside(a: Disk, b: Disk, name: Name, server: Name)
    requires NoAside(b, server) && Elsewhere(a, b, name) && Classify(name) != AsideOf(server)
    ensures NoAside(a, server)
  {
    hide Classify;
    forall n | n in a ensures Classify(n) != AsideOf(server) {
      assert n != name ==> FolderAt(a, n) == FolderAt(b, n);
    }
  }

  lemma SafeAtFirst(d: Disk, server: Name, new': Tree)
    requires NoAside(d, server)
    ensures Safe(d, server, ContentAt(d, server), new')
  {
  }

  /** Everything a call did at one harmless name keeps every state safe. */
  lemma SafeAt(r: Ran, d: Disk, name: Name, server: Name, was: Option<Tree>, new': Tree)
    requires Safe(d, server, was, new') && At(r, d, name)
    requires name != server && Classify(name) != AsideOf(server)
    ensures AllSafe(r.trail, server, was, new') && Safe(r.disk, server, was, new')
  {
    hide Safe, Classify, Elsewhere;
    SafeElsewhere(r.disk, d, name, server, was, new');
    forall i | 0 <= i < |r.trail| ensures Safe(r.trail[i], server, was, new') {
      SafeElsewhere(r.trail[i], d, name, server, was, new');
    }
  }

  lemma SafeBoth(a: seq<Disk>, b: seq<Disk>, server: Name, was: Option<Tree>, new': Tree)
    requires AllSafe(a, server, was, new') && AllSafe(b, server, was, new')
    ensures AllSafe(a + b, server, was, new')
  {
    hide Safe;
  }

  lemma OnlyBoth(a: seq<Disk>, b: seq<Disk>, d: Disk, x: Name, y: Name, z: Name)
    requires AllOnly(a, d, x, y, z) && AllOnly(b, d, x, y, z)
    ensures AllOnly(a + b, d, x, y, z)
  {
    hide OnlyThese;
  }

  lemma OnlyOn(r: seq<Disk>, d: Disk, d0: Disk, x: Name, y: Name, z: Name)
    requires OnlyThese(d, d0, x, y, z) && AllOnly(r, d, x, y, z)
    ensures AllOnly(r, d0, x, y, z)
  {
    forall i | 0 <= i < |r| ensures OnlyThese(r[i], d0, x, y, z) {
      forall n | n != x && n != y && n != z ensures FolderAt(r[i], n) == FolderAt(d0, n) {
        assert FolderAt(r[i], n) == FolderAt(d, n);
      }
    }
  }

  lemma OnlyAt(r: Ran, d: Disk, name: Name, x: Name, y: Name, z: Name)
    requires At(r, d, name) && (name == x || name == y || name == z)
    ensures AllOnly(r.trail, d, x, y, z) && OnlyThese(r.disk, d, x, y, z)
  {
  }

  lemma UnpackFacts(d: Disk, staging: Name, s: Script)
    requires staging !in d
    ensures var r := UnpackRan(d, staging, s);
      && At(r, d, staging)
      && (r.ok <==> s.mkdir && s.unpacked)
      && (staging in r.disk <==> s.mkdir)
      && (r.ok ==> FolderAt(r.disk, staging) == Some(s.new'))
  {
  }

  lemma RenamesFacts(d: Disk, server: Name, staging: Name, aside: Name, s: Script)
    requires Names(server, staging, aside) && FolderAt(d, staging) == Some(s.new') && aside !in d
    ensures var hadWorld := s.statTells && server in d;
      var r := RenamesRan(d, server, staging, aside, hadWorld, s);
      && AllOnly(r.trail, d, server, staging, aside) && OnlyThese(r.disk, d, server, staging, aside)
      && (r.ok <==> Exchanges(d, server, s))
      && (r.ok ==> FolderAt(r.disk, server) == Some(s.new') && staging !in r.disk)
      && (r.ok && !hadWorld ==> aside !in r.disk)
      && (!r.ok ==> r.disk == d || (hadWorld && r.disk == Moved(d, server, aside)))
      && (!r.ok && hadWorld ==> (r.disk == d <==> !s.setAside))
  {
    hide Classify;
  }

  lemma RenamesAreSafe(d: Disk, server: Name, staging: Name, aside: Name, s: Script)
    requires Names(server, staging, aside) && FolderAt(d, staging) == Some(s.new') && aside !in d && NoAside(d, server)
    ensures AllSafe(RenamesRan(d, server, staging, aside, s.statTells && server in d, s).trail, server, ContentAt(d, server), s.new'.content)
  {
    hide Classify, Safe, NoAside, IsTheAside;
    var was, new', hadWorld := ContentAt(d, server), s.new'.content, s.statTells && server in d;
    SafeAtFirst(d, server, new');
    var first := if hadWorld then RenameRan(d, server, aside, s.setAside) else Nothing(d);
    if hadWorld && first.ok { SafeSetAside(d, server, aside, new'); }
    assert Safe(first.disk, server, was, new') && AllSafe(first.trail, server, was, new');
    if first.ok {
      var second := RenameRan(first.disk, staging, server, s.putInPlace);
      if second.ok { SafeWithNew(second.disk, server, was, new'); }
      assert AllSafe(second.trail, server, was, new');
    }
  }

  /** The new world is in its place: whatever becomes of the old one, every state is safe. */
  lemma DropAsideFacts(d: Disk, server: Name, staging: Name, aside: Name, s: Script, was: Option<Tree>)
    requires Names(server, staging, aside) && FolderAt(d, server) == Some(s.new') && staging !in d
    ensures var r := RemoveRan(d, aside, s.dropAside);
      && AllSafe(r.trail, server, was, s.new'.content)
      && AllOnly(r.trail, d, server, staging, aside) && OnlyThese(r.disk, d, server, staging, aside)
      && FolderAt(r.disk, server) == Some(s.new') && staging !in r.disk
      && (s.dropAside.done ==> aside !in r.disk)
  {
    hide Classify, Safe, RemoveRan;
    var r := RemoveRan(d, aside, s.dropAside);
    RemoveIsAt(d, aside, s.dropAside);
    OnlyAt(r, d, aside, server, staging, aside);
    forall i | 0 <= i < |r.trail| ensures Safe(r.trail[i], server, was, s.new'.content) {
      assert FolderAt(r.trail[i], server) == FolderAt(d, server);
      SafeWithNew(r.trail[i], server, was, s.new'.content);
    }
    assert FolderAt(r.disk, server) == FolderAt(d, server);
    assert FolderAt(r.disk, staging) == FolderAt(d, staging);
  }

  /** What a failed exchange is put back from: nothing moved, or the world set aside. */
  predicate HalfWay(d: Disk, d0: Disk, server: Name, staging: Name, aside: Name, hadWorld: bool, s: Script) {
    && aside !in d0 && staging in d0 && server != staging && server != aside && staging != aside
    && (hadWorld ==> server in d0)
    && (d == d0 || (hadWorld && d == Moved(d0, server, aside)))
    && (hadWorld ==> (d == d0 <==> !s.setAside))
  }

  lemma BackFacts(d: Disk, d0: Disk, server: Name, staging: Name, aside: Name, hadWorld: bool, s: Script)
    requires HalfWay(d, d0, server, staging, aside, hadWorld, s)
    ensures var back := if hadWorld then RenameRan(d, aside, server, s.putBack) else Nothing(d);
      && (back.ok <==> !(hadWorld && (s.setAside ==> !s.putBack)))
      && (back.ok ==> forall n :: FolderAt(back.disk, n) == FolderAt(d0, n))
      && (!back.ok ==> back.disk == if s.setAside then Moved(d0, server, aside) else d0)
      && (back.trail == [] || back.trail == [back.disk])
  {
  }

  lemma PutBackFacts(d: Disk, d0: Disk, server: Name, staging: Name, aside: Name, hadWorld: bool, s: Script)
    requires HalfWay(d, d0, server, staging, aside, hadWorld, s)
    ensures var e := PutBackRan(d, server, staging, aside, hadWorld, s);
      && AllOnly(e.trail, d0, server, staging, aside) && OnlyThese(e.disk, d0, server, staging, aside)
      && e.ending != Restored
      && (e.ending == Thrown(None) <==> !s.dropStaging.done)
      && (e.ending == Thrown(Some(Incomplete)) <==> s.dropStaging.done && hadWorld && (s.setAside ==> !s.putBack))
      && (e.ending == Thrown(Some(Untouched)) ==> FolderAt(e.disk, server) == FolderAt(d0, server))
      && (e.ending == Thrown(Some(Incomplete)) ==>
            && (server in e.disk <==> !s.setAside)
            && (server in e.disk ==> e.disk[server] == d0[server])
            && (server !in e.disk ==> FolderAt(e.disk, aside) == Some(d0[server])))
  {
    hide RemoveRan, RenameRan;
    var back := if hadWorld then RenameRan(d, aside, server, s.putBack) else Nothing(d);
    BackFacts(d, d0, server, staging, aside, hadWorld, s);
    var dropped := RemoveRan(back.disk, staging, s.dropStaging);
    RemoveIsAt(back.disk, staging, s.dropStaging);
    assert FolderAt(back.disk, staging) == FolderAt(d0, staging);
    assert OnlyThese(back.disk, d0, server, staging, aside);
    OnlyAt(dropped, back.disk, staging, server, staging, aside);
    OnlyOn(dropped.trail, back.disk, d0, server, staging, aside);
    OnlyBoth(back.trail, dropped.trail, d0, server, staging, aside);
    assert FolderAt(dropped.disk, server) == FolderAt(back.disk, server);
    assert FolderAt(dropped.disk, aside) == FolderAt(back.disk, aside);
  }

  lemma PutBackIsSafe(d: Disk, d0: Disk, server: Name, staging: Name, aside: Name, hadWorld: bool, s: Script)
    requires HalfWay(d, d0, server, staging, aside, hadWorld, s) && Names(server, staging, aside) && NoAside(d0, server)
    ensures AllSafe(PutBackRan(d, server, staging, aside, hadWorld, s).trail, server, ContentAt(d0, server), s.new'.content)
  {
    hide Classify, Safe, NoAside, RemoveRan, RenameRan;
    var was, new' := ContentAt(d0, server), s.new'.content;
    var back := if hadWorld then RenameRan(d, aside, server, s.putBack) else Nothing(d);
    BackFacts(d, d0, server, staging, aside, hadWorld, s);
    SafeAtFirst(d0, server, new');
    if hadWorld { SafeSetAside(d0, server, aside, new'); }
    if back.ok { SameDisk(back.disk, d0); }
    assert Safe(back.disk, server, was, new');
    RemoveIsAt(back.disk, staging, s.dropStaging);
    SafeAt(RemoveRan(back.disk, staging, s.dropStaging), back.disk, staging, server, was, new');
    SafeBoth(back.trail, RemoveRan(back.disk, staging, s.dropStaging).trail, server, was, new');
  }

  lemma SameDisk(a: Disk, b: Disk)
    requires forall n :: FolderAt(a, n) == FolderAt(b, n)
    ensures a == b
  {
    forall n ensures n in a <==> n in b { assert FolderAt(a, n) == FolderAt(b, n); }
    forall n | n in a ensures a[n] == b[n] { assert FolderAt(a, n) == FolderAt(b, n); }
  }

  lemma SwapFacts(d: Disk, server: Name, staging: Name, aside: Name, s: Script)
    requires Names(server, staging, aside) && FolderAt(d, staging) == Some(s.new') && aside !in d
    ensures var e := SwapRan(d, server, staging, aside, s);
      && AllOnly(e.trail, d, server, staging, aside) && OnlyThese(e.disk, d, server, staging, aside)
      && (e.ending == Restored ==> FolderAt(e.disk, server) == Some(s.new') && staging !in e.disk)
      && (e.ending == Restored && s.dropAside.done ==> aside !in e.disk)
      && (e.ending == Restored <==> Exchanges(d, server, s))
      && (e.ending == Thrown(None) <==> !s.dropStaging.done && !Exchanges(d, server, s))
      && (e.ending == Thrown(Some(Untouched)) ==> FolderAt(e.disk, server) == FolderAt(d, server))
      && (e.ending == Thrown(Some(Incomplete)) <==>
            && s.dropStaging.done && !Exchanges(d, server, s)
            && server in d && s.statTells && (s.setAside ==> !s.putBack))
      && (e.ending == Thrown(Some(Incomplete)) ==>
            && (server in e.disk <==> !s.setAside)
            && (server in e.disk ==> e.disk[server] == d[server])
            && (server !in e.disk ==> FolderAt(e.disk, aside) == Some(d[server])))
  {
    hide Classify, Exchanges, RenamesRan, PutBackRan, RemoveRan;
    var hadWorld := s.statTells && server in d;
    var renamed := RenamesRan(d, server, staging, aside, hadWorld, s);
    RenamesFacts(d, server, staging, aside, s);
    if !renamed.ok {
      PutBackFacts(renamed.disk, d, server, staging, aside, hadWorld, s);
      OnlyBoth(renamed.trail, PutBackRan(renamed.disk, server, staging, aside, hadWorld, s).trail, d, server, staging, aside);
    } else if hadWorld {
      DropAsideFacts(renamed.disk, server, staging, aside, s, None);
      var dropped := RemoveRan(renamed.disk, aside, s.dropAside);
      OnlyOn(dropped.trail, renamed.disk, d, server, staging, aside);
      OnlyOn([dropped.disk], renamed.disk, d, server, staging, aside);
      assert [dropped.disk][0] == dropped.disk;
      OnlyBoth(renamed.trail, dropped.trail, d, server, staging, aside);
    } else {
      assert renamed.trail + [] == renamed.trail;
    }
  }

  lemma SwapIsSafe(d: Disk, server: Name, staging: Name, aside: Name, s: Script)
    requires Names(server, staging, aside) && FolderAt(d, staging) == Some(s.new') && aside !in d && NoAside(d, server)
    ensures AllSafe(SwapRan(d, server, staging, aside, s).trail, server, ContentAt(d, server), s.new'.content)
  {
    hide Classify, Safe, NoAside, Exchanges, RenamesRan, PutBackRan, RemoveRan;
    var hadWorld, was := s.statTells && server in d, ContentAt(d, server);
    var renamed := RenamesRan(d, server, staging, aside, hadWorld, s);
    RenamesFacts(d, server, staging, aside, s);
    RenamesAreSafe(d, server, staging, aside, s);
    if !renamed.ok {
      PutBackIsSafe(renamed.disk, d, server, staging, aside, hadWorld, s);
      SafeBoth(renamed.trail, PutBackRan(renamed.disk, server, staging, aside, hadWorld, s).trail, server, was, s.new'.content);
    } else if hadWorld {
      DropAsideFacts(renamed.disk, server, staging, aside, s, was);
      SafeBoth(renamed.trail, RemoveRan(renamed.disk, aside, s.dropAside).trail, server, was, s.new'.content);
    } else {
      assert renamed.trail + [] == renamed.trail;
    }
  }

  /** Neither name a restore makes is taken. */
  predicate NamesAreFree(d: Disk, server: Name, suffix: seq<byte>) {
    StagingName(server, suffix) !in d && AsideName(server, suffix) !in d
  }

  /** How a swapped restore ends, and what it leaves. A failure that says so has changed nothing; the other code is for a world
      that was to be moved aside: either it was not moved at all, or it is whole where it was set aside. */
  lemma HowItEnds(d: Disk, server: Name, suffix: seq<byte>, s: Script)
    requires IsServer(server) && IsSuffix(suffix) && NamesAreFree(d, server, suffix)
    ensures var e := RestoreRan(d, server, suffix, s);
      var staging, aside := StagingName(server, suffix), AsideName(server, suffix);
      && AllOnly(e.trail, d, server, staging, aside) && OnlyThese(e.disk, d, server, staging, aside)
      && (e.ending == Restored ==> FolderAt(e.disk, server) == Some(s.new') && staging !in e.disk)
      && (e.ending == Restored && s.dropAside.done ==> aside !in e.disk)
      && (e.ending == Restored <==> s.mkdir && s.unpacked && Exchanges(d, server, s))
      && (e.ending == Thrown(None) <==> s.mkdir && !s.dropStaging.done && !(s.unpacked && Exchanges(d, server, s)))
      && (e.ending == Thrown(Some(Untouched)) ==> FolderAt(e.disk, server) == FolderAt(d, server))
      && (e.ending == Thrown(Some(Incomplete)) <==>
            && s.mkdir && s.unpacked && s.dropStaging.done && !Exchanges(d, server, s)
            && server in d && s.statTells && (s.setAside ==> !s.putBack))
      && (e.ending == Thrown(Some(Incomplete)) ==>
            && (server in e.disk <==> !s.setAside)
            && (server in e.disk ==> e.disk[server] == d[server])
            && (server !in e.disk ==> FolderAt(e.disk, aside) == Some(d[server])))
  {
    hide StagingName, AsideName, Classify, IsServer, IsSuffix, UnpackRan, SwapRan, RemoveRan;
    var staging, aside := StagingName(server, suffix), AsideName(server, suffix);
    NamesOfExchange(server, suffix);
    UnpackFacts(d, staging, s);
    var unpacked := UnpackRan(d, staging, s);
    OnlyAt(unpacked, d, staging, server, staging, aside);
    assert FolderAt(unpacked.disk, server) == FolderAt(d, server);
    assert FolderAt(unpacked.disk, aside) == FolderAt(d, aside);
    if unpacked.ok {
      SwapFacts(unpacked.disk, server, staging, aside, s);
      var swapped := SwapRan(unpacked.disk, server, staging, aside, s);
      OnlyOn(swapped.trail, unpacked.disk, d, server, staging, aside);
      OnlyOn([swapped.disk], unpacked.disk, d, server, staging, aside);
      assert [swapped.disk][0] == swapped.disk;
      OnlyBoth(unpacked.trail, swapped.trail, d, server, staging, aside);
    } else {
      RemoveIsAt(unpacked.disk, staging, s.dropStaging);
      var dropped := RemoveRan(unpacked.disk, staging, s.dropStaging);
      OnlyAt(dropped, unpacked.disk, staging, server, staging, aside);
      OnlyOn(dropped.trail, unpacked.disk, d, server, staging, aside);
      OnlyBoth(unpacked.trail, dropped.trail, d, server, staging, aside);
      assert FolderAt(dropped.disk, server) == FolderAt(unpacked.disk, server);
    }
  }

  /** Whatever fails and wherever it is killed, every state of a restore is safe when no older world of this server was set aside before. */
  lemma EveryStateIsSafe(d: Disk, server: Name, suffix: seq<byte>, s: Script)
    requires IsServer(server) && IsSuffix(suffix) && NamesAreFree(d, server, suffix) && NoAside(d, server)
    ensures AllSafe(RestoreRan(d, server, suffix, s).trail, server, ContentAt(d, server), s.new'.content)
  {
    hide StagingName, AsideName, Classify, Safe, IsServer, IsSuffix, UnpackRan, SwapRan, RemoveRan;
    var staging, aside := StagingName(server, suffix), AsideName(server, suffix);
    var was, new' := ContentAt(d, server), s.new'.content;
    NamesOfExchange(server, suffix);
    SafeAtFirst(d, server, new');
    UnpackFacts(d, staging, s);
    var unpacked := UnpackRan(d, staging, s);
    SafeAt(unpacked, d, staging, server, was, new');
    assert FolderAt(unpacked.disk, server) == FolderAt(d, server);
    assert FolderAt(unpacked.disk, aside) == FolderAt(d, aside);
    if unpacked.ok {
      StillNoAside(unpacked.disk, d, staging, server);
      SwapIsSafe(unpacked.disk, server, staging, aside, s);
      SafeBoth(unpacked.trail, SwapRan(unpacked.disk, server, staging, aside, s).trail, server, was, new');
    } else {
      RemoveIsAt(unpacked.disk, staging, s.dropStaging);
      SafeAt(RemoveRan(unpacked.disk, staging, s.dropStaging), unpacked.disk, staging, server, was, new');
      SafeBoth(unpacked.trail, RemoveRan(unpacked.disk, staging, s.dropStaging).trail, server, was, new');
    }
  }

  /** Where a restore that gets to its end may be killed: with every part of the new world unpacked, with the old one set aside
      and the new one not yet in its place, and with every part of the old one removed. */
  lemma WhereItMayBeKilled(d: Disk, server: Name, suffix: seq<byte>, s: Script, i: nat)
    requires IsServer(server) && IsSuffix(suffix) && NamesAreFree(d, server, suffix)
    requires server in d && s.mkdir && s.unpacked && s.statTells && s.setAside && s.putInPlace
    ensures var staging, aside, trail := StagingName(server, suffix), AsideName(server, suffix), RestoreRan(d, server, suffix, s).trail;
      var unpacked := d[staging := s.new'];
      var between := Moved(unpacked, server, aside);
      var exchanged := Moved(between, staging, server);
      && (i < |s.unpacking| ==> d[staging := s.unpacking[i]] in trail)
      && unpacked in trail && between in trail && exchanged in trail
      && (i < |s.dropAside.along| ==> exchanged[aside := s.dropAside.along[i]] in trail)
  {
    hide StagingName, AsideName, Classify, IsServer, IsSuffix;
    var staging, aside := StagingName(server, suffix), AsideName(server, suffix);
    NamesOfExchange(server, suffix);
    var made, along := MkdirRan(d, staging, s.new'.newest, true), s.unpacking + [s.new'];
    var filled := FillRan(made.disk, staging, along);
    assert made.disk[staging := s.new'] == d[staging := s.new'];
    assert along[|along| - 1] == s.new' && filled.disk == d[staging := s.new'];
    assert filled.trail[|s.unpacking|] == d[staging := s.new'];
    if i < |s.unpacking| {
      assert along[i] == s.unpacking[i];
      assert made.disk[staging := s.unpacking[i]] == d[staging := s.unpacking[i]];
      assert filled.trail[i] == d[staging := s.unpacking[i]];
    }
    var between := Moved(filled.disk, server, aside);
    var exchanged := Moved(between, staging, server);
    assert RenamesRan(filled.disk, server, staging, aside, true, s) == Ran(exchanged, [between] + [exchanged], true);
    InBoth([between], [exchanged], between);
    InBoth([between], [exchanged], exchanged);
    var removed := RemoveRan(exchanged, aside, s.dropAside);
    if i < |s.dropAside.along| {
      assert FillRan(exchanged, aside, s.dropAside.along).trail[i] == exchanged[aside := s.dropAside.along[i]];
    }
  }

  lemma InBoth(a: seq<Disk>, b: seq<Disk>, d: Disk)
    requires d in a || d in b
    ensures d in a + b
  {
  }
}
