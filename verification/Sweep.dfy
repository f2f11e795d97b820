/** The sweep of what a killed process left, and the two halves together: a restore killed anywhere,
    sweeps killed anywhere, and one sweep that gets to its end. */
module Sweep {
  import opened Bytes
  import opened ArchivePath
  import opened TarReader
  import opened LeftoverNames
  import opened Exchange

  const HOUR: nat := 3600000

  /** How the calls of one entry of the sweep go. */
  datatype EntryIo = EntryIo(rename: bool, removal: Removal)

  /** Whoever was safe still is. */
  ghost predicate Keeps(a: Disk, b: Disk) {
    forall server: Name, was: Option<Tree>, new': Tree ::
      IsServer(server) && Safe(a, server, was, new') ==> Safe(b, server, was, new')
  }

  /** What is no leftover stays as it is. */
  ghost predicate Untouching(a: Disk, b: Disk) {
    forall n :: n in a && Classify(n) == Plain ==> FolderAt(b, n) == FolderAt(a, n)
  }

  /** Every leftover is one the agent made: of a server, by its rules for names. */
  ghost predicate Ours(d: Disk) {
    forall n :: n in d && !Classify(n).Plain? ==> IsServer(Classify(n).server)
  }

  ghost predicate AllKeep(trail: seq<Disk>, d: Disk) {
    forall i :: 0 <= i < |trail| ==> KeepsAll(d, trail[i])
  }

  /** What every state of a sweep keeps: safety, what is no leftover, and whose the leftovers are. */
  ghost predicate KeepsAll(a: Disk, b: Disk) { Keeps(a, b) && Untouching(a, b) && (Ours(a) ==> Ours(b)) }

  lemma DroppingStagingKeeps(a: Disk, b: Disk, name: Name)
    requires Classify(name).StagingOf? && name in a && Elsewhere(b, a, name)
    ensures KeepsAll(a, b)
  {
    hide Classify, Safe;
    OthersStay(b, a, name);
    forall server: Name, was: Option<Tree>, new': Tree | IsServer(server) && Safe(a, server, was, new')
      ensures Safe(b, server, was, new')
    {
      ServerIsPlain(server);
      SafeElsewhere(b, a, name, server, was, new');
    }
  }

  lemma ServerIsPlain(server: Name)
    requires IsServer(server)
    ensures Classify(server) == Plain
  {
    ServerHasNoBreak(server);
    NoDotNoMark(server, RESTORING);
    NoDotNoMark(server, REPLACED);
  }

  /** Where the world is in its place, what was set aside for it may go. */
  lemma DroppingAsideKeeps(a: Disk, b: Disk, name: Name)
    requires Classify(name).AsideOf? && name in a && Elsewhere(b, a, name)
    requires Classify(name).server in a && Classify(name).server != name
    ensures KeepsAll(a, b)
  {
    hide Classify;
    OthersStay(b, a, name);
    forall server: Name, was: Option<Tree>, new': Tree | IsServer(server) && Safe(a, server, was, new')
      ensures Safe(b, server, was, new')
    {
      ServerIsPlain(server);
      assert FolderAt(b, server) == FolderAt(a, server);
      if Classify(name) != AsideOf(server) {
        SafeElsewhere(b, a, name, server, was, new');
      }
    }
  }

  /** Where it is missing, what was set aside for it is it. */
  lemma RecoveringKeeps(a: Disk, name: Name)
    requires Classify(name).AsideOf? && name in a && Classify(name).server !in a
    requires IsServer(Classify(name).server)
    ensures KeepsAll(a, Moved(a, name, Classify(name).server))
  {
    hide Classify;
    var world := Classify(name).server;
    var b := Moved(a, name, world);
    ServerIsPlain(world);
    forall server: Name, was: Option<Tree>, new': Tree | IsServer(server) && Safe(a, server, was, new')
      ensures Safe(b, server, was, new')
    {
      ServerIsPlain(server);
      if server != world {
        OtherServerKeeps(a, name, server, was, new');
      } else {
        assert was.Some?;
        var n :| n in a && IsTheAside(a, server, was.value, n);
        assert n == name;
      }
    }
  }

  lemma OtherServerKeeps(a: Disk, name: Name, server: Name, was: Option<Tree>, new': Tree)
    requires Classify(name).AsideOf? && name in a && Classify(name).server !in a
    requires Classify(name).server != server && Classify(server) == Plain
    requires Classify(Classify(name).server) != AsideOf(server)
    requires Safe(a, server, was, new')
    ensures Safe(Moved(a, name, Classify(name).server), server, was, new')
  {
    hide Classify;
    var b := Moved(a, name, Classify(name).server);
    if server !in a && was.Some? {
      var n :| n in a && IsTheAside(a, server, was.value, n);
      assert n != name;
      assert IsTheAside(b, server, was.value, n);
    }
  }

  /** A listing of a directory: every name once, in any order. */
  ghost predicate IsListing(order: seq<Name>, d: Disk) {
    && (forall n :: n in order <==> n in d)
    && forall i, j :: 0 <= i < j < |order| ==> order[i] != order[j]
  }

  /** Whether a leftover has been idle long enough: at start-up nothing is waited for. */
  predicate OldEnough(folder: Folder, now: int, idle: nat) { now - folder.newest >= idle }

  function Idle(startup: bool, hours: nat): nat { if startup then 0 else hours * HOUR }

  /* ── What the sweep does ─────────────────────────────────────────── */

  function DropRan(d: Disk, name: Name, now: int, idle: nat, io: Removal): Ran {
    if name in d && OldEnough(d[name], now, idle) then RemoveRan(d, name, io) else Nothing(d)
  }

  /** At one name of the listing: what was being restored goes, what was set aside comes back where its world is missing and
      goes where it is not. */
  function VisitRan(d: Disk, name: Name, now: int, startup: bool, io: EntryIo): Ran {
    match Classify(name)
    case StagingOf(_) => DropRan(d, name, now, Idle(startup, 6), io.removal)
    case AsideOf(world) =>
      if world !in d then RenameRan(d, name, world, io.rename)
      else DropRan(d, name, now, Idle(startup, 24), io.removal)
    case Plain => Nothing(d)
  }

  /** The rest of a sweep; a call that fails ends it. */
  function SweepFrom(d: Disk, order: seq<Name>, at: nat, now: int, startup: bool, io: nat -> EntryIo): Ran
    requires at <= |order|
    decreases |order| - at
  {
    if at == |order| then Nothing(d)
    else
      var visited := VisitRan(d, order[at], now, startup, io(at));
      if !visited.ok then visited else Then(visited, SweepFrom(visited.disk, order, at + 1, now, startup, io))
  }

  /** One sweep over a listing of the data root. */
  function SweepRan(d: Disk, order: seq<Name>, now: int, startup: bool, io: nat -> EntryIo): Ran {
    SweepFrom(d, order, 0, now, startup, io)
  }

  /** What a sweep reports: the leavings it removed, and the servers whose world it moved back. */
  datatype Report = Report(removed: seq<Name>, recovered: seq<Name>)

  function VisitReport(d: Disk, name: Name, now: int, startup: bool, io: EntryIo): Report {
    var visited := VisitRan(d, name, now, startup, io);
    if !visited.ok || name !in d || name in visited.disk then Report([], [])
    else if Classify(name).AsideOf? && Classify(name).server !in d then Report([], [Classify(name).server])
    else Report([name], [])
  }

  function Both(a: Report, b: Report): Report { Report(a.removed + b.removed, a.recovered + b.recovered) }

  function ReportFrom(d: Disk, order: seq<Name>, at: nat, now: int, startup: bool, io: nat -> EntryIo): Report
    requires at <= |order|
    decreases |order| - at
  {
    if at == |order| then Report([], [])
    else
      var visited, report := VisitRan(d, order[at], now, startup, io(at)), VisitReport(d, order[at], now, startup, io(at));
      if !visited.ok then report else Both(report, ReportFrom(visited.disk, order, at + 1, now, startup, io))
  }

  class Sweeper {
    var removed: seq<Name>
    var recovered: seq<Name>

    constructor ()
      ensures removed == [] && recovered == []
    {
      removed, recovered := [], [];
    }

    /** Removes a leftover that is old enough; false when the removal failed, which ends the sweep. */
    method Drop(root: DataRoot, name: Name, now: int, idle: nat, io: Removal) returns (ok: bool)
      modifies root, this
      ensures Ran(root.dirs, root.trail, ok)
           == Then(Ran(old(root.dirs), old(root.trail), true), DropRan(old(root.dirs), name, now, idle, io))
      ensures recovered == old(recovered)
      ensures removed == old(removed) + if ok && name in old(root.dirs) && name !in root.dirs then [name] else []
    {
      hide RemoveRan;
      RemoveIsAt(root.dirs, name, io);
      if name !in root.dirs || !OldEnough(root.dirs[name], now, idle) { return true; }
      ok := root.Remove(name, io);
      if ok { removed := removed + [name]; }
    }

    method Visit(root: DataRoot, name: Name, now: int, startup: bool, io: EntryIo) returns (ok: bool)
      modifies root, this
      ensures Ran(root.dirs, root.trail, ok)
           == Then(Ran(old(root.dirs), old(root.trail), true), VisitRan(old(root.dirs), name, now, startup, io))
      ensures Report(removed, recovered)
           == Both(Report(old(removed), old(recovered)), VisitReport(old(root.dirs), name, now, startup, io))
    {
      hide Classify, RemoveRan;
      RemoveIsAt(root.dirs, name, io.removal);
      match Classify(name)
      case StagingOf(_) =>
        ok := Drop(root, name, now, Idle(startup, 6), io.removal);
      case AsideOf(world) =>
        if world !in root.dirs {
          ok := root.Rename(name, world, io.rename);
          if ok { recovered := recovered + [world]; }
        } else {
          ok := Drop(root, name, now, Idle(startup, 24), io.removal);
        }
      case Plain => ok := true;
    }

    /** Over the names of the data root, as the listing has them. */
    method SweepWorlds(root: DataRoot, order: seq<Name>, now: int, startup: bool, io: nat -> EntryIo) returns (completed: bool)
      modifies root, this
      ensures Ran(root.dirs, root.trail, completed)
           == Then(Ran(old(root.dirs), old(root.trail), true), SweepRan(old(root.dirs), order, now, startup, io))
      ensures Report(removed, recovered)
           == Both(Report(old(removed), old(recovered)), ReportFrom(old(root.dirs), order, 0, now, startup, io))
    {
      hide VisitRan, VisitReport;
      var i := 0;
      while i < |order|
        invariant 0 <= i <= |order|
        invariant Then(Ran(root.dirs, root.trail, true), SweepFrom(root.dirs, order, i, now, startup, io))
               == Then(Ran(old(root.dirs), old(root.trail), true), SweepRan(old(root.dirs), order, now, startup, io))
        invariant Both(Report(removed, recovered), ReportFrom(root.dirs, order, i, now, startup, io))
               == Both(Report(old(removed), old(recovered)), ReportFrom(old(root.dirs), order, 0, now, startup, io))
      {
        var ok := Visit(root, order[i], now, startup, io(i));
        if !ok { return false; }
        i := i + 1;
      }
      return true;
    }
  }

  /* ── What every state of it keeps ────────────────────────────────── */

  lemma KeepsItself(d: Disk)
    ensures KeepsAll(d, d)
  {
  }

  lemma OthersStay(a: Disk, b: Disk, name: Name)
    requires Elsewhere(a, b, name) && name in b
    ensures forall n :: n in a ==> n in b
  {
    forall n | n in a ensures n in b {
      assert n != name ==> FolderAt(a, n) == FolderAt(b, n);
    }
  }

  lemma KeepsOn(a: Disk, b: Disk, c: Disk)
    requires KeepsAll(a, b) && KeepsAll(b, c)
    ensures KeepsAll(a, c)
  {
    hide Classify, Safe, IsServer;
    forall n | n in a && Classify(n) == Plain ensures FolderAt(c, n) == FolderAt(a, n) {
      assert FolderAt(b, n) == FolderAt(a, n);
      assert n in b;
    }
  }

  lemma AllKeepOn(trail: seq<Disk>, d0: Disk, d: Disk)
    requires KeepsAll(d0, d) && AllKeep(trail, d)
    ensures AllKeep(trail, d0)
  {
    hide KeepsAll;
    forall i | 0 <= i < |trail| ensures KeepsAll(d0, trail[i]) {
      KeepsOn(d0, d, trail[i]);
    }
  }

  lemma DropKeeps(d: Disk, name: Name, now: int, idle: nat, io: Removal)
    requires name in d && (Classify(name).StagingOf? || (Classify(name).AsideOf? && Classify(name).server in d))
    ensures var r := DropRan(d, name, now, idle, io);
      && AllKeep(r.trail, d) && KeepsAll(d, r.disk) && Elsewhere(r.disk, d, name)
      && (io.done ==> r.ok) && (r.ok ==> (name in r.disk <==> !OldEnough(d[name], now, idle)))
      && (!OldEnough(d[name], now, idle) ==> r == Nothing(d))
  {
    hide Classify, KeepsAll, Elsewhere, RemoveRan;
    var r := DropRan(d, name, now, idle, io);
    RemoveIsAt(d, name, io);
    KeepsItself(d);
    SameElsewhere(d, name);
    forall t | t in r.trail || t == r.disk ensures KeepsAll(d, t) {
      if Classify(name).StagingOf? {
        DroppingStagingKeeps(d, t, name);
      } else {
        DroppingAsideKeeps(d, t, name);
      }
    }
  }

  lemma SameElsewhere(d: Disk, name: Name)
    ensures Elsewhere(d, d, name)
  {
  }

  /** What a sweep does not touch yet: what is being restored, and what was set aside for a world that is there, dated less than
      six and twenty-four hours back; at start-up, dated after the sweep's clock. */
  predicate IsYoung(d: Disk, name: Name, now: int, startup: bool) {
    name in d &&
    match Classify(name)
    case StagingOf(_) => now - d[name].newest < if startup then 0 else 21600000
    case AsideOf(world) => world in d && now - d[name].newest < if startup then 0 else 86400000
    case Plain => false
  }

  lemma VisitKeeps(d: Disk, name: Name, now: int, startup: bool, io: EntryIo)
    requires name in d && Ours(d)
    ensures var r := VisitRan(d, name, now, startup, io);
      && AllKeep(r.trail, d) && KeepsAll(d, r.disk)
      && (Classify(name) == Plain ==> r.disk == d)
      && (forall n :: n != name && n in d ==> FolderAt(r.disk, n) == FolderAt(d, n))
      && (forall n :: n in r.disk && n !in d ==> Classify(name) == AsideOf(n) && IsServer(n))
      && (io.rename && io.removal.done ==> r.ok)
      && (r.ok && Classify(name).StagingOf? ==> (name in r.disk <==> now - d[name].newest < if startup then 0 else 21600000))
      && (r.ok && Classify(name).AsideOf? && Classify(name).server !in d ==>
            name !in r.disk && FolderAt(r.disk, Classify(name).server) == Some(d[name]))
      && (r.ok && Classify(name).AsideOf? && Classify(name).server in d ==>
            (name in r.disk <==> now - d[name].newest < if startup then 0 else 86400000))
      && (IsYoung(d, name, now, startup) ==> r == Nothing(d))
  {
    hide Classify, Safe, IsServer, DropRan, Keeps;
    KeepsItself(d);
    match Classify(name)
    case StagingOf(_) =>
      DropKeeps(d, name, now, Idle(startup, 6), io.removal);
      OthersStay(DropRan(d, name, now, Idle(startup, 6), io.removal).disk, d, name);
    case AsideOf(world) =>
      ServerIsPlain(world);
      if world !in d {
        RecoveringKeeps(d, name);
      } else {
        DropKeeps(d, name, now, Idle(startup, 24), io.removal);
        OthersStay(DropRan(d, name, now, Idle(startup, 24), io.removal).disk, d, name);
      }
    case Plain =>
  }

  /* ── What a whole sweep leaves ───────────────────────────────────── */

  /** Whether the world of the aside at `j` is in its place when the sweep gets there: it was, or an aside listed before was moved there. */
  predicate WorldIsThere(d0: Disk, order: seq<Name>, j: nat)
    requires j < |order| && Classify(order[j]).AsideOf?
  {
    Classify(order[j]).server in d0 || exists i :: 0 <= i < j && Classify(order[i]) == Classify(order[j])
  }

  /** What a sweep that went past a name has settled. */
  ghost predicate Swept(d: Disk, d0: Disk, order: seq<Name>, j: nat, now: int, startup: bool)
    requires j < |order| && order[j] in d0
  {
    var name := order[j];
    && (Classify(name).AsideOf? ==> Classify(name).server in d)
    && (Classify(name).AsideOf? ==>
          (name in d <==> now - d0[name].newest < (if startup then 0 else 86400000) && WorldIsThere(d0, order, j)))
    && (Classify(name).StagingOf? ==> (name in d <==> now - d0[name].newest < if startup then 0 else 21600000))
  }

  /** How far a sweep has come. */
  ghost predicate SweptTo(d: Disk, d0: Disk, order: seq<Name>, at: nat, now: int, startup: bool) {
    && at <= |order| && IsListing(order, d0) && Ours(d0) && Ours(d) && KeepsAll(d0, d)
    && (forall j :: at <= j < |order| ==> order[j] in d && d[order[j]] == d0[order[j]])
    && (forall n :: n in d && n !in d0 ==> IsServer(n) && exists i :: 0 <= i < at && Classify(order[i]) == AsideOf(n))
    && (forall j :: 0 <= j < at ==> Swept(d, d0, order, j, now, startup))
  }

  /** A world in its place stays there. */
  lemma WorldStays(after: Disk, before: Disk, server: Name)
    requires IsServer(server) && Untouching(before, after) && server in before
    ensures FolderAt(after, server) == FolderAt(before, server)
  {
    hide Classify, IsServer;
    ServerIsPlain(server);
  }

  lemma StillSwept(after: Disk, before: Disk, d0: Disk, order: seq<Name>, j: nat, now: int, startup: bool)
    requires j < |order| && order[j] in d0 && Ours(d0) && Swept(before, d0, order, j, now, startup)
    requires Untouching(before, after)
    requires order[j] in before ==> FolderAt(after, order[j]) == FolderAt(before, order[j])
    requires forall n :: n in after && n !in before ==> IsServer(n)
    ensures Swept(after, d0, order, j, now, startup)
  {
    hide Classify, IsServer, WorldIsThere;
    var name := order[j];
    if Classify(name).AsideOf? { WorldStays(after, before, Classify(name).server); }
    if name in after && name !in before { ServerIsPlain(name); }
  }

  /** Whether the world is there, in terms of the listing. */
  lemma WhetherTheWorldIsThere(d: Disk, d0: Disk, order: seq<Name>, at: nat, now: int, startup: bool)
    requires SweptTo(d, d0, order, at, now, startup) && at < |order| && Classify(order[at]).AsideOf?
    ensures Classify(order[at]).server in d <==> WorldIsThere(d0, order, at)
  {
    hide Classify, IsServer, Safe, Keeps;
    var server := Classify(order[at]).server;
    assert order[at] in d0;
    if server in d0 {
      WorldStays(d, d0, server);
    } else if WorldIsThere(d0, order, at) {
      var i :| 0 <= i < at && Classify(order[i]) == Classify(order[at]);
      assert Swept(d, d0, order, i, now, startup);
    }
  }

  lemma SweptNow(after: Disk, before: Disk, d0: Disk, order: seq<Name>, at: nat, now: int, startup: bool, io: EntryIo)
    requires SweptTo(before, d0, order, at, now, startup) && at < |order|
    requires VisitRan(before, order[at], now, startup, io).ok && after == VisitRan(before, order[at], now, startup, io).disk
    ensures Swept(after, d0, order, at, now, startup)
  {
    hide Classify, IsServer, VisitRan, Keeps, WorldIsThere;
    var name := order[at];
    VisitKeeps(before, name, now, startup, io);
    if Classify(name).AsideOf? {
      WhetherTheWorldIsThere(before, d0, order, at, now, startup);
      if Classify(name).server in before { WorldStays(after, before, Classify(name).server); }
    }
  }

  lemma EarlierOnesStay(before: Disk, d0: Disk, order: seq<Name>, at: nat, now: int, startup: bool, io: EntryIo)
    requires SweptTo(before, d0, order, at, now, startup) && at < |order|
    ensures var after := VisitRan(before, order[at], now, startup, io).disk;
      forall j :: 0 <= j < at ==> order[j] in d0 && Swept(after, d0, order, j, now, startup)
  {
    hide Classify, IsServer, VisitRan, Keeps, WorldIsThere, Swept;
    var name, after := order[at], VisitRan(before, order[at], now, startup, io).disk;
    VisitKeeps(before, name, now, startup, io);
    forall j | 0 <= j < at ensures order[j] in d0 && Swept(after, d0, order, j, now, startup) {
      assert order[j] != name && order[j] in order;
      StillSwept(after, before, d0, order, j, now, startup);
    }
  }

  lemma LaterOnesStay(before: Disk, d0: Disk, order: seq<Name>, at: nat, now: int, startup: bool, io: EntryIo)
    requires SweptTo(before, d0, order, at, now, startup) && at < |order|
    ensures var after := VisitRan(before, order[at], now, startup, io).disk;
      && (forall j :: at < j < |order| ==> order[j] in after && after[order[j]] == d0[order[j]])
      && (forall n :: n in after && n !in d0 ==> IsServer(n) && exists i :: 0 <= i < at + 1 && Classify(order[i]) == AsideOf(n))
  {
    hide Classify, IsServer, VisitRan, Keeps, WorldIsThere, Swept;
    var name, after := order[at], VisitRan(before, order[at], now, startup, io).disk;
    VisitKeeps(before, name, now, startup, io);
    forall j | at < j < |order| ensures order[j] in after && after[order[j]] == d0[order[j]] {
      assert order[j] != name && FolderAt(after, order[j]) == FolderAt(before, order[j]);
    }
    forall n | n in after && n !in d0 ensures IsServer(n) && exists i :: 0 <= i < at + 1 && Classify(order[i]) == AsideOf(n) {
      if n !in before { assert Classify(order[at]) == AsideOf(n); }
    }
  }

  lemma NextIsThere(d: Disk, d0: Disk, order: seq<Name>, at: nat, now: int, startup: bool)
    requires SweptTo(d, d0, order, at, now, startup)
    ensures at <= |order| && Ours(d) && KeepsAll(d0, d) && (at < |order| ==> order[at] in d)
  {
    hide Classify, IsServer, KeepsAll;
  }

  lemma SweptOneMore(before: Disk, d0: Disk, order: seq<Name>, at: nat, now: int, startup: bool, io: EntryIo)
    requires SweptTo(before, d0, order, at, now, startup) && at < |order|
    requires VisitRan(before, order[at], now, startup, io).ok
    ensures SweptTo(VisitRan(before, order[at], now, startup, io).disk, d0, order, at + 1, now, startup)
  {
    hide Classify, IsServer, VisitRan, KeepsAll, WorldIsThere, Swept, IsListing, Ours;
    var after := VisitRan(before, order[at], now, startup, io).disk;
    NextIsThere(before, d0, order, at, now, startup);
    VisitKeeps(before, order[at], now, startup, io);
    KeepsOn(d0, before, after);
    StillOurs(before, after);
    SweptNow(after, before, d0, order, at, now, startup, io);
    EarlierOnesStay(before, d0, order, at, now, startup, io);
    LaterOnesStay(before, d0, order, at, now, startup, io);
  }

  lemma StillOurs(before: Disk, after: Disk)
    requires KeepsAll(before, after) && Ours(before)
    ensures Ours(after)
  {
    hide Ours, Keeps, Untouching;
  }

  /** Every call of a sweep goes through. */
  ghost predicate AllGoWell(io: nat -> EntryIo) { forall k :: io(k).rename && io(k).removal.done }

  /** What the rest of a sweep keeps of what it finds. */
  lemma {:induction false} RestKeeps(d: Disk, d0: Disk, order: seq<Name>, at: nat, now: int, startup: bool, io: nat -> EntryIo)
    requires SweptTo(d, d0, order, at, now, startup)
    ensures KeepsAll(d, SweepFrom(d, order, at, now, startup, io).disk)
    decreases |order| - at
  {
    hide Classify, VisitRan, KeepsAll, SweptTo, Ours;
    NextIsThere(d, d0, order, at, now, startup);
    KeepsItself(d);
    if at < |order| {
      var visited := VisitRan(d, order[at], now, startup, io(at));
      VisitKeeps(d, order[at], now, startup, io(at));
      if visited.ok {
        SweptOneMore(d, d0, order, at, now, startup, io(at));
        RestKeeps(visited.disk, d0, order, at + 1, now, startup, io);
        KeepsOn(d, visited.disk, SweepFrom(visited.disk, order, at + 1, now, startup, io).disk);
      }
    }
  }

  lemma {:induction false} SweepFacts(d: Disk, d0: Disk, order: seq<Name>, at: nat, now: int, startup: bool, io: nat -> EntryIo)
    requires SweptTo(d, d0, order, at, now, startup)
    ensures var r := SweepFrom(d, order, at, now, startup, io);
      && AllKeep(r.trail, d0) && KeepsAll(d0, r.disk)
      && (r.ok ==> SweptTo(r.disk, d0, order, |order|, now, startup))
      && (AllGoWell(io) ==> r.ok)
    decreases |order| - at
  {
    hide Classify, VisitRan, KeepsAll, SweptTo, Ours;
    NextIsThere(d, d0, order, at, now, startup);
    if at < |order| {
      var visited := VisitRan(d, order[at], now, startup, io(at));
      VisitKeeps(d, order[at], now, startup, io(at));
      AllKeepOn(visited.trail, d0, d);
      KeepsOn(d0, d, visited.disk);
      if visited.ok {
        SweptOneMore(d, d0, order, at, now, startup, io(at));
        SweepFacts(visited.disk, d0, order, at + 1, now, startup, io);
      }
    }
  }

  lemma StartsSwept(d: Disk, order: seq<Name>, now: int, startup: bool)
    requires IsListing(order, d) && Ours(d)
    ensures SweptTo(d, d, order, 0, now, startup)
  {
    hide Classify, IsServer;
    KeepsItself(d);
    forall j | 0 <= j < |order| ensures order[j] in d {
      assert order[j] in order;
    }
  }

  /** One sweep over a listing in any order. It gets to its end when its calls go through; every state keeps whoever was safe and
      what is no leftover; nobody whose world was set aside is left without one; and exactly those leavings stay that are not old
      enough: six hours for what was being restored and twenty-four for what was set aside, at start-up what changed after the
      sweep's own clock, an aside among them only when it was not needed. */
  lemma WholeSweep(d: Disk, order: seq<Name>, now: int, startup: bool, io: nat -> EntryIo)
    requires IsListing(order, d) && Ours(d)
    ensures var r := SweepRan(d, order, now, startup, io);
      && AllKeep(r.trail, d) && KeepsAll(d, r.disk) && (AllGoWell(io) ==> r.ok)
      && (r.ok ==>
            && (forall n :: n in d && Classify(n).AsideOf? ==> Classify(n).server in r.disk)
            && (forall n :: n in r.disk && Classify(n) != Plain ==> n in d && (startup ==> d[n].newest > now))
            && (forall n :: n in d && Classify(n).StagingOf? ==>
                  (n in r.disk <==> now - d[n].newest < if startup then 0 else 21600000))
            && (forall j :: 0 <= j < |order| && Classify(order[j]).AsideOf? ==>
                  (order[j] in r.disk <==>
                     now - d[order[j]].newest < (if startup then 0 else 86400000) && WorldIsThere(d, order, j))))
  {
    hide Classify, IsServer, Keeps, WorldIsThere, SweepFrom;
    StartsSwept(d, order, now, startup);
    SweepFacts(d, d, order, 0, now, startup, io);
    var r := SweepRan(d, order, now, startup, io);
    if r.ok {
      forall n | n in d ensures exists j :: 0 <= j < |order| && order[j] == n && Swept(r.disk, d, order, j, now, startup) {
        assert n in order;
        var j :| 0 <= j < |order| && order[j] == n;
        assert Swept(r.disk, d, order, j, now, startup);
      }
      forall n | n in r.disk && Classify(n) != Plain ensures n in d && (startup ==> d[n].newest > now) {
        if n !in d { ServerIsPlain(n); }
      }
    }
  }

  /* ── What it does not touch, and what it reports ─────────────────── */

  predicate StaysAt(r: Ran, d: Disk, n: Name) {
    FolderAt(r.disk, n) == FolderAt(d, n) && forall i :: 0 <= i < |r.trail| ==> FolderAt(r.trail[i], n) == FolderAt(d, n)
  }

  /** A visit to one leaving touches no other, at any state. */
  lemma OtherLeavingsStay(d: Disk, name: Name, now: int, startup: bool, io: EntryIo, n: Name)
    requires name in d && Ours(d) && n != name && Classify(n) != Plain
    ensures StaysAt(VisitRan(d, name, now, startup, io), d, n)
  {
    hide Classify, IsServer, RemoveRan;
    RemoveIsAt(d, name, io.removal);
    if Classify(name).AsideOf? { ServerIsPlain(Classify(name).server); }
  }

  lemma {:induction false} RestLeaves(d: Disk, d0: Disk, order: seq<Name>, at: nat, now: int, startup: bool, io: nat -> EntryIo, n: Name)
    requires SweptTo(d, d0, order, at, now, startup) && Classify(n) != Plain
    requires forall j :: at <= j < |order| ==> order[j] != n || IsYoung(d, n, now, startup)
    ensures StaysAt(SweepFrom(d, order, at, now, startup, io), d, n)
    decreases |order| - at
  {
    hide Classify, VisitRan, KeepsAll, SweptTo, Ours, IsYoung, FolderAt;
    NextIsThere(d, d0, order, at, now, startup);
    if at < |order| {
      var visited := VisitRan(d, order[at], now, startup, io(at));
      VisitKeeps(d, order[at], now, startup, io(at));
      if order[at] != n { OtherLeavingsStay(d, order[at], now, startup, io(at), n); }
      if visited.ok {
        SweptOneMore(d, d0, order, at, now, startup, io(at));
        if IsYoung(d, n, now, startup) { StillYoung(d, visited.disk, n, now, startup); }
        RestLeaves(visited.disk, d0, order, at + 1, now, startup, io, n);
      }
    }
  }

  lemma StillYoung(before: Disk, after: Disk, n: Name, now: int, startup: bool)
    requires IsYoung(before, n, now, startup) && FolderAt(after, n) == FolderAt(before, n)
    requires KeepsAll(before, after) && Ours(before)
    ensures IsYoung(after, n, now, startup)
  {
    hide Classify, IsServer, Keeps;
    if Classify(n).AsideOf? { WorldStays(after, before, Classify(n).server); }
  }

  /** While a restore lives, a sweep leaves it alone: what it is unpacking and what it set aside stay as they are at every state of
      the sweep as long as they are young. */
  lemma YoungOnesStay(d: Disk, order: seq<Name>, now: int, startup: bool, io: nat -> EntryIo, n: Name)
    requires IsListing(order, d) && Ours(d) && IsYoung(d, n, now, startup)
    ensures StaysAt(SweepRan(d, order, now, startup, io), d, n)
  {
    hide Classify, StaysAt, SweepFrom, Ours, SweptTo;
    StartsSwept(d, order, now, startup);
    RestLeaves(d, d, order, 0, now, startup, io, n);
  }

  lemma {:induction false} OnlyWorldsAppear(d: Disk, d0: Disk, order: seq<Name>, at: nat, now: int, startup: bool, io: nat -> EntryIo, n: Name)
    requires SweptTo(d, d0, order, at, now, startup)
    requires n !in d && n in SweepFrom(d, order, at, now, startup, io).disk
    ensures IsServer(n) && Classify(n) == Plain
    decreases |order| - at
  {
    hide Classify, IsServer, VisitRan, KeepsAll, SweptTo, Ours;
    NextIsThere(d, d0, order, at, now, startup);
    if at < |order| {
      var visited := VisitRan(d, order[at], now, startup, io(at));
      VisitKeeps(d, order[at], now, startup, io(at));
      if n in visited.disk {
        ServerIsPlain(n);
      } else {
        SweptOneMore(d, d0, order, at, now, startup, io(at));
        OnlyWorldsAppear(visited.disk, d0, order, at + 1, now, startup, io, n);
      }
    }
  }

  lemma VisitReports(d: Disk, d0: Disk, order: seq<Name>, at: nat, now: int, startup: bool, io: EntryIo)
    requires SweptTo(d, d0, order, at, now, startup) && at < |order| && VisitRan(d, order[at], now, startup, io).ok
    ensures var name, after, report := order[at], VisitRan(d, order[at], now, startup, io).disk, VisitReport(d, order[at], now, startup, io);
      && (forall n :: n in report.removed ==> n == name)
      && (name in report.removed <==>
            name !in after && Classify(name) != Plain && (Classify(name).AsideOf? ==> WorldIsThere(d0, order, at)))
      && (forall n :: n in report.recovered <==> n !in d && n in after)
  {
    hide Classify, IsServer, Keeps, WorldIsThere, VisitRan, OldEnough, Swept;
    var name := order[at];
    NextIsThere(d, d0, order, at, now, startup);
    VisitKeeps(d, name, now, startup, io);
    if Classify(name).AsideOf? {
      WhetherTheWorldIsThere(d, d0, order, at, now, startup);
      ServerIsPlain(Classify(name).server);
    }
  }

  lemma Distinct(d: Disk, d0: Disk, order: seq<Name>, at: nat, now: int, startup: bool)
    requires SweptTo(d, d0, order, at, now, startup)
    ensures forall i, j :: 0 <= i < j < |order| ==> order[i] != order[j]
  {
    hide KeepsAll, Ours, Swept;
  }

  lemma RestIsThere(d: Disk, after: Disk, final: Disk, n: Name)
    requires KeepsAll(d, after) && KeepsAll(after, final)
    requires n in after && n !in d ==> IsServer(n)
    requires n in final && n !in after ==> IsServer(n)
    ensures (n !in d && n in after) || (n !in after && n in final) <==> n !in d && n in final
  {
    hide Classify, IsServer, Keeps;
    if IsServer(n) {
      if n in after { WorldStays(final, after, n); }
      if n in d { WorldStays(after, d, n); }
    }
  }

  /** What the rest of a sweep that gets to its end reports. */
  lemma {:induction false} RestReports(d: Disk, d0: Disk, order: seq<Name>, at: nat, now: int, startup: bool, io: nat -> EntryIo)
    requires SweptTo(d, d0, order, at, now, startup) && SweepFrom(d, order, at, now, startup, io).ok
    ensures var final, report := SweepFrom(d, order, at, now, startup, io).disk, ReportFrom(d, order, at, now, startup, io);
      && (forall n :: n in report.removed ==> exists j :: at <= j < |order| && order[j] == n)
      && (forall j :: at <= j < |order| ==>
            (order[j] in report.removed <==>
               order[j] !in final && Classify(order[j]) != Plain && (Classify(order[j]).AsideOf? ==> WorldIsThere(d0, order, j))))
      && (forall n :: n in report.recovered <==> n !in d && n in final)
    decreases |order| - at
  {
    hide Classify, VisitRan, VisitReport, KeepsAll, SweptTo, Ours, WorldIsThere, IsServer, StaysAt;
    NextIsThere(d, d0, order, at, now, startup);
    if at < |order| {
      Distinct(d, d0, order, at, now, startup);
      var after := VisitRan(d, order[at], now, startup, io(at)).disk;
      var final := SweepFrom(after, order, at + 1, now, startup, io).disk;
      VisitReports(d, d0, order, at, now, startup, io(at));
      VisitKeeps(d, order[at], now, startup, io(at));
      SweptOneMore(d, d0, order, at, now, startup, io(at));
      RestReports(after, d0, order, at + 1, now, startup, io);
      if Classify(order[at]) != Plain {
        RestLeaves(after, d0, order, at + 1, now, startup, io, order[at]);
        StaysIn(SweepFrom(after, order, at + 1, now, startup, io), after, order[at]);
      }
      RestKeeps(after, d0, order, at + 1, now, startup, io);
      forall n ensures (n !in d && n in after) || (n !in after && n in final) <==> n !in d && n in final {
        if n !in after && n in final { OnlyWorldsAppear(after, d0, order, at + 1, now, startup, io, n); }
        RestIsThere(d, after, final, n);
      }
      var first, rest := VisitReport(d, order[at], now, startup, io(at)), ReportFrom(after, order, at + 1, now, startup, io);
      assert ReportFrom(d, order, at, now, startup, io) == Both(first, rest);
    }
  }

  lemma StaysIn(r: Ran, d: Disk, n: Name)
    requires StaysAt(r, d, n)
    ensures n in r.disk <==> n in d
  {
  }

  /** What a sweep that got to its end reports: as removed, every leaving that went but those that were moved back to their place;
      as recovered, every world that was missing and is there. */
  lemma ReportsWhatItDid(d: Disk, order: seq<Name>, now: int, startup: bool, io: nat -> EntryIo)
    requires IsListing(order, d) && Ours(d) && SweepRan(d, order, now, startup, io).ok
    ensures var final, report := SweepRan(d, order, now, startup, io).disk, ReportFrom(d, order, 0, now, startup, io);
      && (forall n :: n in report.removed ==> n in d)
      && (forall j :: 0 <= j < |order| ==>
            (order[j] in report.removed <==>
               order[j] !in final && Classify(order[j]) != Plain && (Classify(order[j]).AsideOf? ==> WorldIsThere(d, order, j))))
      && (forall n :: n in report.recovered <==> n !in d && n in final)
  {
    hide Classify, SweepFrom, ReportFrom, KeepsAll, SweptTo, Ours, WorldIsThere;
    StartsSwept(d, order, now, startup);
    RestReports(d, d, order, 0, now, startup, io);
    forall n | n in ReportFrom(d, order, 0, now, startup, io).removed ensures n in d {
      var j :| 0 <= j < |order| && order[j] == n;
    }
  }

  /* ── Both halves ─────────────────────────────────────────────────── */

  /** A start-up sweep: its listing, its clock, how its calls go, and where in it the process is killed. */
  datatype Run = Run(order: seq<Name>, now: int, io: nat -> EntryIo, killedAt: nat)

  /** The process dies having got as far as one of the states, and starts again. */
  function KilledAt(d: Disk, trail: seq<Disk>, k: nat): Disk {
    if k == 0 || trail == [] then d else trail[Min(k, |trail|) - 1]
  }

  function SweepOf(d: Disk, run: Run): Ran { SweepRan(d, run.order, run.now, true, run.io) }

  /** After these sweeps, each killed where it says. */
  function AfterSweeps(d: Disk, runs: seq<Run>): Disk
    decreases |runs|
  {
    if runs == [] then d else AfterSweeps(KilledAt(d, SweepOf(d, runs[0]).trail, runs[0].killedAt), runs[1..])
  }

  /** Every sweep goes by a listing of what is there, in any order. */
  ghost predicate Listed(d: Disk, runs: seq<Run>)
    decreases |runs|
  {
    runs != [] ==>
      IsListing(runs[0].order, d) && Listed(KilledAt(d, SweepOf(d, runs[0]).trail, runs[0].killedAt), runs[1..])
  }

  /** Other worlds, and the directories that are nobody's, are as they were. */
  ghost predicate OthersUntouched(a: Disk, b: Disk, server: Name) {
    forall n :: n in a && n != server && Classify(n) == Plain ==> FolderAt(b, n) == FolderAt(a, n)
  }

  /** What holds between all of these. */
  ghost predicate InOrder(now: Disk, d: Disk, server: Name, was: Option<Tree>, new': Tree) {
    Safe(now, server, was, new') && Ours(now) && OthersUntouched(d, now, server)
  }

  lemma StateKeeps(before: Disk, after: Disk, d: Disk, server: Name, was: Option<Tree>, new': Tree)
    requires KeepsAll(before, after) && IsServer(server)
    requires InOrder(before, d, server, was, new')
    ensures InOrder(after, d, server, was, new')
  {
    hide Classify, Safe, IsServer;
    forall n | n in d && n != server && Classify(n) == Plain ensures FolderAt(after, n) == FolderAt(d, n) {
      assert FolderAt(before, n) == FolderAt(d, n);
      assert n in before;
    }
  }

  lemma RestoreIsInOrder(d: Disk, server: Name, suffix: seq<byte>, s: Script, k: nat)
    requires IsServer(server) && IsSuffix(suffix) && Ours(d) && NamesAreFree(d, server, suffix) && NoAside(d, server)
    ensures InOrder(KilledAt(d, RestoreRan(d, server, suffix, s).trail, k), d, server, ContentAt(d, server), s.new'.content)
  {
    hide Classify, Safe, IsServer, IsSuffix, StagingName, AsideName, RestoreRan, Ours, OthersUntouched, NamesAreFree, OnlyThese;
    var trail := RestoreRan(d, server, suffix, s).trail;
    HowItEnds(d, server, suffix, s);
    EveryStateIsSafe(d, server, suffix, s);
    SafeAtFirst(d, server, s.new'.content);
    OthersAtFirst(d, server);
    if k > 0 && trail != [] {
      OnlyTheseIsOurs(trail[Min(k, |trail|) - 1], d, server, suffix);
    }
  }

  lemma {:induction false} SweepsKeep(before: Disk, runs: seq<Run>, d: Disk, server: Name, was: Option<Tree>, new': Tree)
    requires IsServer(server) && InOrder(before, d, server, was, new') && Listed(before, runs)
    ensures InOrder(AfterSweeps(before, runs), d, server, was, new')
    decreases |runs|
  {
    hide Classify, IsServer, KeepsAll, InOrder, SweepRan, IsListing;
    if runs != [] {
      var trail := SweepOf(before, runs[0]).trail;
      OursOf(before, d, server, was, new');
      WholeSweep(before, runs[0].order, runs[0].now, true, runs[0].io);
      var after := KilledAt(before, trail, runs[0].killedAt);
      KeepsItself(before);
      StateKeeps(before, after, d, server, was, new');
      SweepsKeep(after, runs[1..], d, server, was, new');
    }
  }

  lemma OursOf(now: Disk, d: Disk, server: Name, was: Option<Tree>, new': Tree)
    requires InOrder(now, d, server, was, new')
    ensures Ours(now)
  {
  }

  lemma OthersAtFirst(d: Disk, server: Name)
    ensures OthersUntouched(d, d, server)
  {
  }

  lemma OnlyTheseIsOurs(a: Disk, d: Disk, server: Name, suffix: seq<byte>)
    requires IsServer(server) && IsSuffix(suffix) && Ours(d)
    requires OnlyThese(a, d, server, StagingName(server, suffix), AsideName(server, suffix))
    ensures Ours(a) && OthersUntouched(d, a, server)
  {
    hide Classify, IsServer, StagingName, AsideName;
    NamesReadBack(server, suffix);
    forall n | n in a && !Classify(n).Plain? ensures IsServer(Classify(n).server) {
      if n != StagingName(server, suffix) && n != AsideName(server, suffix) && n != server {
        assert FolderAt(a, n) == FolderAt(d, n);
      }
    }
  }

  /** After a sweep that got to its end, safe is settled: the world is in its place. */
  lemma SettledWorld(before: Disk, final: Disk, server: Name, was: Option<Tree>, new': Tree)
    requires Safe(final, server, was, new')
    requires forall n :: n in before && Classify(n).AsideOf? ==> Classify(n).server in final
    requires forall n :: n in final && Classify(n) != Plain ==> n in before
    ensures ContentAt(final, server) == was || ContentAt(final, server) == Some(new')
  {
    hide Classify;
  }

  /* ── Clocks ──────────────────────────────────────────────────────── */

  /** Nothing says it changed after this time. */
  predicate NoneYounger(d: Disk, now: int) { forall n :: n in d ==> d[n].newest <= now }

  predicate FoldersOlder(along: seq<Folder>, now: int) { forall i :: 0 <= i < |along| ==> along[i].newest <= now }

  ghost predicate RunOlder(run: Run, now: int) { forall k :: FoldersOlder(run.io(k).removal.along, now) }

  predicate ScriptOlder(s: Script, now: int) {
    s.new'.newest <= now && FoldersOlder(s.unpacking, now) && FoldersOlder(s.dropStaging.along, now) && FoldersOlder(s.dropAside.along, now)
  }

  predicate AllOlder(r: Ran, now: int) { NoneYounger(r.disk, now) && forall i :: 0 <= i < |r.trail| ==> NoneYounger(r.trail[i], now) }

  lemma ThenIsOlder(a: Ran, b: Ran, now: int)
    requires AllOlder(a, now) && AllOlder(b, now)
    ensures AllOlder(Then(a, b), now)
  {
    hide NoneYounger;
  }

  lemma FillIsOlder(d: Disk, name: Name, along: seq<Folder>, now: int)
    requires NoneYounger(d, now) && FoldersOlder(along, now)
    ensures AllOlder(FillRan(d, name, along), now)
  {
  }

  lemma RenameIsOlder(d: Disk, from: Name, to: Name, io: bool, now: int)
    requires NoneYounger(d, now)
    ensures AllOlder(RenameRan(d, from, to, io), now)
  {
  }

  lemma RemoveIsOlder(d: Disk, name: Name, io: Removal, now: int)
    requires NoneYounger(d, now) && FoldersOlder(io.along, now)
    ensures AllOlder(RemoveRan(d, name, io), now)
  {
    FillIsOlder(d, name, io.along, now);
  }

  lemma SwapIsOlder(d: Disk, server: Name, staging: Name, aside: Name, s: Script, now: int)
    requires NoneYounger(d, now) && ScriptOlder(s, now)
    ensures forall i :: 0 <= i < |SwapRan(d, server, staging, aside, s).trail| ==> NoneYounger(SwapRan(d, server, staging, aside, s).trail[i], now)
  {
    hide NoneYounger, FoldersOlder, RenameRan, RemoveRan;
    var hadWorld := s.statTells && server in d;
    RenameIsOlder(d, server, aside, s.setAside, now);
    var first := if hadWorld then RenameRan(d, server, aside, s.setAside) else Nothing(d);
    RenameIsOlder(first.disk, staging, server, s.putInPlace, now);
    var renamed := RenamesRan(d, server, staging, aside, hadWorld, s);
    RenameIsOlder(renamed.disk, aside, server, s.putBack, now);
    var back := if hadWorld then RenameRan(renamed.disk, aside, server, s.putBack) else Nothing(renamed.disk);
    RemoveIsOlder(back.disk, staging, s.dropStaging, now);
    RemoveIsOlder(renamed.disk, aside, s.dropAside, now);
  }

  lemma RestoreIsOlder(d: Disk, server: Name, suffix: seq<byte>, s: Script, now: int, k: nat)
    requires NoneYounger(d, now) && ScriptOlder(s, now)
    ensures NoneYounger(KilledAt(d, RestoreRan(d, server, suffix, s).trail, k), now)
  {
    hide StagingName, AsideName, SwapRan, RemoveRan;
    var staging, aside := StagingName(server, suffix), AsideName(server, suffix);
    var unpacked := UnpackRan(d, staging, s);
    assert AllOlder(unpacked, now) by {
      var made := MkdirRan(d, staging, s.new'.newest, s.mkdir);
      FillIsOlder(made.disk, staging, s.unpacking + (if s.unpacked then [s.new'] else []), now);
    }
    hide UnpackRan, NoneYounger, FoldersOlder;
    SwapIsOlder(unpacked.disk, server, staging, aside, s, now);
    RemoveIsOlder(unpacked.disk, staging, s.dropStaging, now);
  }

  lemma VisitIsOlder(d: Disk, name: Name, startup: bool, at: int, io: EntryIo, now: int)
    requires NoneYounger(d, now) && FoldersOlder(io.removal.along, now)
    ensures AllOlder(VisitRan(d, name, at, startup, io), now)
  {
    hide Classify, NoneYounger, FoldersOlder, RenameRan, RemoveRan;
    RemoveIsOlder(d, name, io.removal, now);
    if Classify(name).AsideOf? { RenameIsOlder(d, name, Classify(name).server, io.rename, now); }
  }

  lemma {:induction false} SweepIsOlder(d: Disk, order: seq<Name>, at: nat, clock: int, io: nat -> EntryIo, now: int)
    requires at <= |order| && NoneYounger(d, now) && forall k :: FoldersOlder(io(k).removal.along, now)
    ensures AllOlder(SweepFrom(d, order, at, clock, true, io), now)
    decreases |order| - at
  {
    hide NoneYounger, FoldersOlder, VisitRan;
    if at < |order| {
      VisitIsOlder(d, order[at], true, clock, io(at), now);
      var visited := VisitRan(d, order[at], clock, true, io(at));
      SweepIsOlder(visited.disk, order, at + 1, clock, io, now);
      ThenIsOlder(visited, SweepFrom(visited.disk, order, at + 1, clock, true, io), now);
    }
  }

  lemma {:induction false} SweepsAreOlder(d: Disk, runs: seq<Run>, now: int)
    requires NoneYounger(d, now) && forall i :: 0 <= i < |runs| ==> RunOlder(runs[i], now)
    ensures NoneYounger(AfterSweeps(d, runs), now)
    decreases |runs|
  {
    hide NoneYounger, FoldersOlder, SweepFrom;
    if runs != [] {
      assert RunOlder(runs[0], now);
      SweepIsOlder(d, runs[0].order, 0, runs[0].now, runs[0].io, now);
      SweepsAreOlder(KilledAt(d, SweepOf(d, runs[0]).trail, runs[0].killedAt), runs[1..], now);
    }
  }

  /* ── The theorem ─────────────────────────────────────────────────── */

  /** What is on the disk when the last sweep begins: a restore was killed anywhere, then sweeps were, each anywhere. */
  function Crashed(d: Disk, server: Name, suffix: seq<byte>, s: Script, killedAt: nat, runs: seq<Run>): Disk {
    AfterSweeps(KilledAt(d, RestoreRan(d, server, suffix, s).trail, killedAt), runs)
  }

  ghost predicate AllListed(d: Disk, server: Name, suffix: seq<byte>, s: Script, killedAt: nat, runs: seq<Run>, last: Run) {
    && Listed(KilledAt(d, RestoreRan(d, server, suffix, s).trail, killedAt), runs)
    && IsListing(last.order, Crashed(d, server, suffix, s, killedAt, runs))
  }

  /** A restore of one server is killed at any of its states, whichever of its calls failed; then start-up sweeps are killed at
      any of theirs, any number of times, each over its own listing; then one is left alone. It gets to its end when its calls go
      through. Then the server has its whole old world or the whole new one, and nothing is left over when nothing that was there
      or was made claims to be younger than the last sweep. No other server noticed, whether it got to its end or not. */
  lemma KilledAnywhere(d: Disk, server: Name, suffix: seq<byte>, s: Script, killedAt: nat, runs: seq<Run>, last: Run)
    requires IsServer(server) && IsSuffix(suffix) && Ours(d) && NamesAreFree(d, server, suffix) && NoAside(d, server)
    requires AllListed(d, server, suffix, s, killedAt, runs, last)
    ensures var final := SweepOf(Crashed(d, server, suffix, s, killedAt, runs), last);
      && (AllGoWell(last.io) ==> final.ok)
      && OthersUntouched(d, final.disk, server)
      && (final.ok ==> ContentAt(final.disk, server) == ContentAt(d, server) || ContentAt(final.disk, server) == Some(s.new'.content))
      && (final.ok && NoneYounger(d, last.now) && ScriptOlder(s, last.now)
          && (forall i :: 0 <= i < |runs| ==> RunOlder(runs[i], last.now)) ==>
            forall n :: n in final.disk ==> Classify(n) == Plain)
  {
    hide Classify, Safe, IsServer, IsSuffix, RestoreRan, SweepRan, NoneYounger, ScriptOlder, RunOlder, KeepsAll, IsListing, NamesAreFree;
    var was, new' := ContentAt(d, server), s.new'.content;
    var killed := KilledAt(d, RestoreRan(d, server, suffix, s).trail, killedAt);
    RestoreIsInOrder(d, server, suffix, s, killedAt);
    SweepsKeep(killed, runs, d, server, was, new');
    var before := Crashed(d, server, suffix, s, killedAt, runs);
    WholeSweep(before, last.order, last.now, true, last.io);
    var final := SweepOf(before, last);
    StateKeeps(before, final.disk, d, server, was, new');
    if final.ok { SettledWorld(before, final.disk, server, was, new'); }
    if NoneYounger(d, last.now) && ScriptOlder(s, last.now) && forall i :: 0 <= i < |runs| ==> RunOlder(runs[i], last.now) {
      RestoreIsOlder(d, server, suffix, s, last.now, killedAt);
      SweepsAreOlder(killed, runs, last.now);
      if final.ok { NothingStays(before, final.disk, last.now); }
    }
  }

  lemma NothingStays(before: Disk, final: Disk, now: int)
    requires NoneYounger(before, now)
    requires forall n :: n in final && Classify(n) != Plain ==> n in before && before[n].newest > now
    ensures forall n :: n in final ==> Classify(n) == Plain
  {
    hide Classify;
  }

  /* ── Why no older aside may be there ─────────────────────────────── */

  lemma {:induction false} SomeListing(names: set<Name>) returns (order: seq<Name>)
    ensures forall n :: n in order <==> n in names
    ensures forall i, j :: 0 <= i < j < |order| ==> order[i] != order[j]
  {
    if names == {} {
      order := [];
    } else {
      var n :| n in names;
      var rest := SomeListing(names - {n});
      order := [n] + rest;
    }
  }

  lemma ListingFrom(d: Disk, first: Name) returns (order: seq<Name>)
    requires first in d
    ensures IsListing(order, d) && order != [] && order[0] == first
  {
    var rest := SomeListing(d.Keys - {first});
    order := [first] + rest;
  }

  /** A restore killed there and one sweep, uninterrupted, end with this world in the server's place. */
  ghost predicate EndsWith(d: Disk, server: Name, suffix: seq<byte>, s: Script, killedAt: nat, last: Run, world: Tree) {
    var final := SweepOf(Crashed(d, server, suffix, s, killedAt, []), last);
    AllListed(d, server, suffix, s, killedAt, [], last) && final.ok && ContentAt(final.disk, server) == Some(world)
  }

  /** With an older aside, whatever it holds: the restore goes well and is killed between its renames, the sweep goes well and
      lists the older aside first, and the older world stands in place of both. */
  lemma StaleAsideWins(d: Disk, server: Name, suffix: seq<byte>, s: Script, stale: Name, now: int, io: nat -> EntryIo)
    requires IsServer(server) && IsSuffix(suffix) && Ours(d) && NamesAreFree(d, server, suffix)
    requires server in d && stale in d && Classify(stale) == AsideOf(server)
    requires s.mkdir && s.unpacked && s.statTells && s.setAside && s.putInPlace && AllGoWell(io)
    ensures exists killedAt: nat, last: Run ::
              last.now == now && last.io == io && EndsWith(d, server, suffix, s, killedAt, last, d[stale].content)
  {
    hide Safe, IsServer, IsSuffix, StagingName, AsideName, Classify, RestoreRan, KeepsAll, SweptTo;
    var trail := RestoreRan(d, server, suffix, s).trail;
    var staging, aside := StagingName(server, suffix), AsideName(server, suffix);
    NamesOfExchange(server, suffix);
    WhereItMayBeKilled(d, server, suffix, s, 0);
    var between := Moved(d[staging := s.new'], server, aside);
    var k :| 0 <= k < |trail| && trail[k] == between;
    HowItEnds(d, server, suffix, s);
    OnlyTheseIsOurs(between, d, server, suffix);
    assert FolderAt(between, stale) == FolderAt(d, stale) && server !in between;
    var order := ListingFrom(between, stale);
    StartsSwept(between, order, now, true);
    SweptOneMore(between, between, order, 0, now, true, io(0));
    var moved := VisitRan(between, stale, now, true, io(0)).disk;
    assert moved == Moved(between, stale, server);
    SweepFacts(moved, between, order, 1, now, true, io);
    RestKeeps(moved, between, order, 1, now, true, io);
    var final := SweepFrom(moved, order, 1, now, true, io).disk;
    StaysInPlace(moved, final, server);
    var last := Run(order, now, io, 0);
    assert KilledAt(d, trail, k + 1) == between;
    assert Crashed(d, server, suffix, s, k + 1, []) == between;
    assert EndsWith(d, server, suffix, s, k + 1, last, d[stale].content);
  }

  lemma StaysInPlace(before: Disk, after: Disk, server: Name)
    requires KeepsAll(before, after) && IsServer(server) && server in before
    ensures FolderAt(after, server) == FolderAt(before, server)
  {
    WorldStays(after, before, server);
  }
}
