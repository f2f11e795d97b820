/** A restore as the panel asks for it: what is checked before, the two ways it may go, what it restores, and what a failure may
    say about the world. */
module Restore {
  import opened Bytes
  import opened ArchivePath
  import TarFormat
  import TarReader
  import TarRoundTrip
  import TarWriter
  import opened LeftoverNames
  import opened Exchange
  import opened Room

  /** What is known before anything is touched; `seen` says whether the world, if it is there, is found. */
  datatype Request = Request(
    archiveThere: bool,
    checksumMatches: bool,
    needed: nat,
    free: nat,
    total: nat,
    floorGiven: Option<nat>,
    seen: bool,
    worldBytes: nat,
    inPlace: bool)

  /** How the calls of an in-place restore go. */
  datatype InPlaceScript = InPlaceScript(emptied: Removal, mkdir: bool, unpacking: seq<Folder>, unpacked: bool, new': Folder)

  /* ── What the node does ──────────────────────────────────────────── */

  /** The mode without room for two copies: the world goes first. */
  function InPlaceRan(d: Disk, server: Name, p: InPlaceScript): Ended {
    var emptied := RemoveRan(d, server, p.emptied);
    if !emptied.ok then Ended(emptied.disk, emptied.trail, Thrown(None))
    else
      var made := Then(emptied, MkdirRan(emptied.disk, server, p.new'.newest, p.mkdir));
      if !made.ok then Ended(made.disk, made.trail, Thrown(None))
      else
        var filled := Then(made, FillRan(made.disk, server, p.unpacking + (if p.unpacked then [p.new'] else [])));
        Ended(filled.disk, filled.trail, if p.unpacked then Restored else Thrown(Some(Incomplete)))
  }

  /** What is asked before anything is touched: the file, its checksum, and room in the mode asked for. */
  predicate Admitted(d: Disk, server: Name, r: Request) {
    && r.archiveThere && r.checksumMatches
    && if r.inPlace then AdmitsInPlace(r.free, r.total, r.floorGiven, if r.seen && server in d then r.worldBytes else 0, r.needed)
       else AdmitsSwapped(r.free, r.total, r.floorGiven, r.needed)
  }

  function ArchiveRan(d: Disk, server: Name, suffix: seq<byte>, r: Request, s: Script, p: InPlaceScript): Ended {
    if !Admitted(d, server, r) then Ended(d, [], Thrown(Some(Untouched)))
    else if r.inPlace then InPlaceRan(d, server, p)
    else RestoreRan(d, server, suffix, s)
  }

  method RestoreInPlace(root: DataRoot, server: Name, p: InPlaceScript) returns (o: Ending)
    modifies root
    ensures Ended(root.dirs, root.trail, o)
         == After(Ran(old(root.dirs), old(root.trail), true), InPlaceRan(old(root.dirs), server, p))
  {
    hide RemoveRan, MkdirRan, FillRan;
    var emptied := root.Remove(server, p.emptied);
    if !emptied { return Thrown(None); }
    var made := root.Mkdir(server, p.new'.newest, p.mkdir);
    if !made { return Thrown(None); }
    root.Fill(server, p.unpacking + (if p.unpacked then [p.new'] else []));
    return if p.unpacked then Restored else Thrown(Some(Incomplete));
  }

  method RestoreArchive(root: DataRoot, server: Name, suffix: seq<byte>, r: Request, s: Script, p: InPlaceScript)
    returns (o: Ending)
    modifies root
    ensures Ended(root.dirs, root.trail, o)
         == After(Ran(old(root.dirs), old(root.trail), true), ArchiveRan(old(root.dirs), server, suffix, r, s, p))
  {
    hide InPlaceRan, RestoreRan;
    if !r.archiveThere || !r.checksumMatches { return Thrown(Some(Untouched)); }
    if !r.inPlace {
      if !AdmitsSwapped(r.free, r.total, r.floorGiven, r.needed) { return Thrown(Some(Untouched)); }
      o := RestoreSwapped(root, server, suffix, s);
      return;
    }
    var world := if r.seen && server in root.dirs then r.worldBytes else 0;
    if !AdmitsInPlace(r.free, r.total, r.floorGiven, world, r.needed) { return Thrown(Some(Untouched)); }
    o := RestoreInPlace(root, server, p);
  }

  /* ── How it ends ─────────────────────────────────────────────────── */

  /** Whether the world was removed, or was not there, and its directory made again. */
  predicate Emptied(d: Disk, server: Name, p: InPlaceScript) { (p.emptied.done || server !in d) && p.mkdir }

  lemma InPlaceEnds(d: Disk, server: Name, p: InPlaceScript)
    ensures var e := InPlaceRan(d, server, p);
      && Elsewhere(e.disk, d, server)
      && (e.ending == Restored <==> Emptied(d, server, p) && p.unpacked)
      && (e.ending == Thrown(Some(Incomplete)) <==> Emptied(d, server, p) && !p.unpacked)
      && (e.ending == Thrown(None) <==> !Emptied(d, server, p))
      && (e.ending == Restored ==> FolderAt(e.disk, server) == Some(p.new'))
  {
    hide RemoveRan;
    RemoveIsAt(d, server, p.emptied);
  }

  lemma OneOfFour(ending: Ending)
    ensures ending == Restored || ending == Thrown(None) || ending == Thrown(Some(Incomplete)) || ending == Thrown(Some(Untouched))
  {
    if ending.Thrown? && ending.code.Some? {
      match ending.code.value
      case Untouched =>
      case Incomplete =>
    }
  }

  /** Each ending, when it is and only then; a failure that says the world is untouched is true, in either mode. */
  lemma ArchiveEnds(d: Disk, server: Name, suffix: seq<byte>, r: Request, s: Script, p: InPlaceScript)
    requires IsServer(server) && IsSuffix(suffix) && NamesAreFree(d, server, suffix)
    ensures var e := ArchiveRan(d, server, suffix, r, s, p);
      var room := if r.inPlace then r.free + (if r.seen && server in d then r.worldBytes else 0) - HardFloor(r.total, r.floorGiven)
                  else r.free - FloorFor(r.total, r.floorGiven);
      var admitted := r.archiveThere && r.checksumMatches && r.needed <= room;
      var exchanged := s.unpacked && Exchanges(d, server, s);
      var lost := s.mkdir && s.unpacked && !exchanged && server in d && s.statTells && (s.setAside ==> !s.putBack);
      && (e.ending == Restored <==>
            admitted && if r.inPlace then Emptied(d, server, p) && p.unpacked else s.mkdir && exchanged)
      && (e.ending == Thrown(None) <==>
            admitted && if r.inPlace then !Emptied(d, server, p) else s.mkdir && !exchanged && !s.dropStaging.done)
      && (e.ending == Thrown(Some(Incomplete)) <==>
            admitted && if r.inPlace then Emptied(d, server, p) && !p.unpacked else lost && s.dropStaging.done)
      && (e.ending == Thrown(Some(Untouched)) <==>
            !admitted || (!r.inPlace && !(s.mkdir && exchanged) && !lost && (s.mkdir ==> s.dropStaging.done)))
      && (e.ending == Thrown(Some(Untouched)) ==> FolderAt(e.disk, server) == FolderAt(d, server))
      && (e.ending == Restored ==> FolderAt(e.disk, server) == Some(if r.inPlace then p.new' else s.new'))
      && (forall n :: n != server && n != StagingName(server, suffix) && n != AsideName(server, suffix) ==>
            FolderAt(e.disk, n) == FolderAt(d, n))
  {
    hide InPlaceRan, RestoreRan, StagingName, AsideName, IsServer, IsSuffix, Exchanges, NamesAreFree, HardFloor, FloorFor;
    HowItEnds(d, server, suffix, s);
    InPlaceEnds(d, server, p);
    OneOfFour(RestoreRan(d, server, suffix, s).ending);
    OneOfFour(InPlaceRan(d, server, p).ending);
  }

  /* ── What the panel makes of a failure ───────────────────────────── */

  datatype WorldState = Unchanged | Partial | Unknown

  /** The state of the world after a failure, from whether the node was asked at all and from its own word. */
  function WorldAfter(touched: bool, said: Option<Stage>): WorldState {
    if !touched || said == Some(Untouched) then Unchanged
    else if said == Some(Incomplete) then Partial
    else Unknown
  }

  datatype Report = Done | Failed(world: WorldState)

  /** The panel's restore: the server is stopped, the archive brought, the node asked, the server started again;
      `before` and `after` say whether what comes before and after the node's own work goes well. */
  method RestoreBackup(root: DataRoot, server: Name, suffix: seq<byte>, r: Request, s: Script, p: InPlaceScript,
                       before: bool, after: bool) returns (report: Report)
    requires IsServer(server) && IsSuffix(suffix) && NamesAreFree(root.dirs, server, suffix)
    modifies root
    // What is called unchanged is unchanged.
    ensures report == Failed(Unchanged) ==> FolderAt(root.dirs, server) == FolderAt(old(root.dirs), server)
    ensures report == Done ==> FolderAt(root.dirs, server) == Some(if r.inPlace then p.new' else s.new')
    ensures root.dirs == if before then ArchiveRan(old(root.dirs), server, suffix, r, s, p).disk else old(root.dirs)
    ensures var ending := ArchiveRan(old(root.dirs), server, suffix, r, s, p).ending;
      && (report == Done <==> before && after && ending == Restored)
      && (report == Failed(Unchanged) <==> !before || ending == Thrown(Some(Untouched)))
      && (report == Failed(Partial) <==> before && ending == Thrown(Some(Incomplete)))
      && (report == Failed(Unknown) <==> before && (ending == Thrown(None) || (ending == Restored && !after)))
  {
    hide ArchiveRan, StagingName, AsideName, IsServer, IsSuffix, NamesAreFree;
    var touched := false;
    if !before { return Failed(WorldAfter(touched, None)); }
    touched := true;
    ArchiveEnds(root.dirs, server, suffix, r, s, p);
    var o := RestoreArchive(root, server, suffix, r, s, p);
    match o
    case Thrown(said) => return Failed(WorldAfter(touched, said));
    case Restored =>
      if !after { return Failed(WorldAfter(touched, None)); }
      return Done;
  }

  /** The other way round is not promised: a restore that says the world is incomplete has left it as it was exactly when it was
      the first rename that failed. */
  lemma UntouchedButNotSaid(d: Disk, server: Name, suffix: seq<byte>, s: Script)
    requires IsServer(server) && IsSuffix(suffix) && NamesAreFree(d, server, suffix)
    requires RestoreRan(d, server, suffix, s).ending == Thrown(Some(Incomplete))
    ensures FolderAt(RestoreRan(d, server, suffix, s).disk, server) == FolderAt(d, server) <==> !s.setAside
  {
    hide RestoreRan, StagingName, AsideName, IsServer, IsSuffix, NamesAreFree;
    HowItEnds(d, server, suffix, s);
  }

  /* ── What is restored ────────────────────────────────────────────── */

  /** A script of unpacking this stream: it unpacks only when the reader takes the whole of it, and then to what the reader made. */
  predicate Unpacks(s: Script, base: Path, chunks: seq<seq<byte>>) {
    s.unpacked ==>
      TarReader.Extract(base, chunks).Ok? && s.new'.content == TarReader.Extract(base, chunks).value.tree
  }

  /** A restore that says it is done has put what the reader made of the stream in the server's place. */
  lemma OnlyWhatTheReaderTook(d: Disk, server: Name, suffix: seq<byte>, s: Script, base: Path, chunks: seq<seq<byte>>)
    requires IsServer(server) && IsSuffix(suffix) && NamesAreFree(d, server, suffix) && Unpacks(s, base, chunks)
    ensures RestoreRan(d, server, suffix, s).ending == Restored ==>
      TarReader.Extract(base, chunks).Ok?
      && ContentAt(RestoreRan(d, server, suffix, s).disk, server) == Some(TarReader.Extract(base, chunks).value.tree)
  {
    hide RestoreRan, StagingName, AsideName, IsServer, IsSuffix, NamesAreFree, TarReader.Extract;
    HowItEnds(d, server, suffix, s);
  }

  /** An archive cut short anywhere before its first end block was whole: the restore says the world is untouched, and it is. */
  lemma TruncatedArchiveLeavesTheWorld(d: Disk, server: Name, suffix: seq<byte>, s: Script, base: Path,
                                       entries: seq<TarWriter.Walked>, k: nat, chunks: seq<seq<byte>>)
    requires IsServer(server) && IsSuffix(suffix) && NamesAreFree(d, server, suffix) && Unpacks(s, base, chunks)
    requires TarRoundTrip.Fits(map[], entries) && forall w :: w in entries ==> TarWriter.WithinSize(w)
    requires k < |TarWriter.Archive(entries)| - TarFormat.BLOCK && Concat(chunks) == TarWriter.Archive(entries)[..k]
    requires s.dropStaging.done
    ensures RestoreRan(d, server, suffix, s).ending == Thrown(Some(Untouched))
    ensures FolderAt(RestoreRan(d, server, suffix, s).disk, server) == FolderAt(d, server)
  {
    hide RestoreRan, StagingName, AsideName, IsServer, IsSuffix, NamesAreFree, TarReader.Extract, TarWriter.Archive, TarRoundTrip.Fits;
    TarRoundTrip.NoTruncatedArchivePasses(base, entries, k, chunks);
    HowItEnds(d, server, suffix, s);
    OneOfFour(RestoreRan(d, server, suffix, s).ending);
  }

  /** From a world that lived while it was archived to the server's directory: every path holds what it held when it was read, and
      no other path holds anything. */
  lemma WhatWasArchivedComesBack(d: Disk, server: Name, suffix: seq<byte>, s: Script, base: Path,
                                 world: TarRoundTrip.Listing, chunks: seq<seq<byte>>)
    requires IsServer(server) && IsSuffix(suffix) && NamesAreFree(d, server, suffix) && Unpacks(s, base, chunks)
    requires TarRoundTrip.Proper(world) && TarRoundTrip.AllArchivable(TarRoundTrip.Walk([], world))
    requires RestoreRan(d, server, suffix, s).ending == Restored
    ensures forall w :: w in TarRoundTrip.Walk([], world) ==> TarWriter.WithinSize(w)
    ensures Concat(chunks) == TarWriter.Archive(TarRoundTrip.Walk([], world)) ==>
      var content := ContentAt(RestoreRan(d, server, suffix, s).disk, server);
      content.Some? && forall p :: TarRoundTrip.NodeAt(content.value, p) == TarRoundTrip.Lookup(world, p)
  {
    hide RestoreRan, StagingName, AsideName, IsServer, IsSuffix, NamesAreFree, TarReader.Extract, TarWriter.Archive;
    OnlyWhatTheReaderTook(d, server, suffix, s, base, chunks);
    TarRoundTrip.WorldRoundTrip(base, world, chunks);
  }
}
