/** How an archive comes by its name. Any number of requests go on at once, each with a partial file of its own, and a kill may
    come between any two steps of any of them. */
module Publication {
  import opened Bytes
  import opened ArchivePath
  import opened LeftoverNames

  // ".tar.gz", ".partial." and ".tar.gz.partial."
  const TAR_GZ: seq<byte> := [46, 116, 97, 114, 46, 103, 122]
  const PARTIAL: seq<byte> := [46, 112, 97, 114, 116, 105, 97, 108, 46]
  const LEFT_BEHIND: seq<byte> := TAR_GZ + PARTIAL

  predicate IsArchiveChar(b: byte) { IsServerChar(b) || b == DOT }

  predicate IsAlphanumeric(b: byte) { 48 <= b <= 57 || 65 <= b <= 90 || 97 <= b <= 122 }

  /** What is listed: /^[A-Za-z0-9][A-Za-z0-9._-]{0,120}\.tar\.gz$/ */
  predicate IsArtifact(name: Name) {
    && 8 <= |name| <= 128
    && name[|name| - 7..] == TAR_GZ
    && IsAlphanumeric(name[0]) && forall i :: 0 <= i < |name| - 7 ==> IsArchiveChar(name[i])
  }

  /** What a request may ask for has no two dots in a row besides. */
  predicate TwoDots(name: Name) { exists i :: 0 <= i < |name| - 1 && name[i] == DOT && name[i + 1] == DOT }

  /** One byte of a listed name after its first. */
  predicate MayFollow(b: byte) { 48 <= b <= 57 || 65 <= b <= 90 || 97 <= b <= 122 || b == 45 || b == 46 || b == 95 }

  /** A letter or a digit, at most 120 more of those, dots, dashes and underscores, and ".tar.gz". */
  predicate Spells(name: Name, first: byte, more: seq<byte>) {
    && name == [first] + more + [46, 116, 97, 114, 46, 103, 122] && |more| <= 120
    && (48 <= first <= 57 || 65 <= first <= 90 || 97 <= first <= 122)
    && forall i :: 0 <= i < |more| ==> MayFollow(more[i])
  }

  /** Which names are listed. */
  lemma ArtifactIff(name: Name)
    ensures IsArtifact(name) <==> exists first: byte, more: seq<byte> :: Spells(name, first, more)
  {
    hide Spells, IsArtifact;
    if IsArtifact(name) {
      ArtifactIsSpelled(name);
    }
    if first: byte, more: seq<byte> :| Spells(name, first, more) {
      SpelledIsArtifact(name, first, more);
    }
  }

  lemma ArtifactIsSpelled(name: Name)
    requires IsArtifact(name)
    ensures |name| >= 8 && Spells(name, name[0], name[1..|name| - 7])
  {
    var more := name[1..|name| - 7];
    assert name == [name[0]] + more + name[|name| - 7..];
    forall i | 0 <= i < |more| ensures MayFollow(more[i]) {
      assert more[i] == name[i + 1] && IsArchiveChar(name[i + 1]);
    }
  }

  lemma SpelledIsArtifact(name: Name, first: byte, more: seq<byte>)
    requires Spells(name, first, more)
    ensures IsArtifact(name)
  {
    assert name[|name| - 7..] == TAR_GZ;
    forall i | 0 <= i < |name| - 7 ensures IsArchiveChar(name[i]) {
      if i > 0 { assert name[i] == more[i - 1]; }
    }
  }

  function PartialName(artifact: Name, suffix: seq<byte>): Name { artifact + PARTIAL + suffix }

  predicate MarkedAt(name: Name, i: int) { 0 <= i <= |name| - 16 && name[i..i + 16] == LEFT_BEHIND }

  /** What a sweep takes for the leavings of an archive. */
  predicate LooksLeftBehind(name: Name) { exists i :: 0 <= i < |name| && MarkedAt(name, i) }

  /** A partial is never listed, and always swept. */
  lemma PartialIsNoArtifact(artifact: Name, suffix: seq<byte>)
    requires IsArtifact(artifact) && IsSuffix(suffix)
    ensures !IsArtifact(PartialName(artifact, suffix)) && LooksLeftBehind(PartialName(artifact, suffix))
  {
    var name, at := PartialName(artifact, suffix), |artifact| - 7;
    assert name[|name| - 1] == suffix[|suffix| - 1] && IsHex(suffix[|suffix| - 1]);
    if |name| >= 8 {
      assert name[|name| - 7..][6] == name[|name| - 1] && TAR_GZ[6] == 122;
    }
    assert name[at..at + 16] == artifact[at..] + PARTIAL;
    assert MarkedAt(name, at);
  }

  /** But a whole archive whose own name has the marker in it is swept too: sanitise lets dots through. */
  lemma AWholeArchiveMayLookLeftBehind()
    ensures var name: Name := [97] + LEFT_BEHIND + [98] + TAR_GZ; IsArtifact(name) && LooksLeftBehind(name)
  {
    var name: Name := [97] + LEFT_BEHIND + [98] + TAR_GZ;
    assert name[1..17] == LEFT_BEHIND;
    assert MarkedAt(name, 1);
    assert name[|name| - 7..] == TAR_GZ;
  }

  /** A name looks left behind when ".tar.gz.partial." stands in it, anywhere. */
  lemma LooksLeftBehindIff(name: Name)
    ensures LooksLeftBehind(name) <==>
      exists before: Name, after: Name ::
        name == before + [46, 116, 97, 114, 46, 103, 122, 46, 112, 97, 114, 116, 105, 97, 108, 46] + after
  {
    assert LEFT_BEHIND == [46, 116, 97, 114, 46, 103, 122, 46, 112, 97, 114, 116, 105, 97, 108, 46];
    if LooksLeftBehind(name) {
      var i :| 0 <= i < |name| && MarkedAt(name, i);
      assert name == name[..i] + LEFT_BEHIND + name[i + 16..];
    }
    if before: Name, after: Name :| name == before + LEFT_BEHIND + after {
      assert name[|before|..|before| + 16] == LEFT_BEHIND;
      assert MarkedAt(name, |before|);
    }
  }

  /* ── The requests ────────────────────────────────────────────────── */

  datatype Stage = Writing(written: nat) | Linked | Renaming | Published | Failing | Over

  /** `whole` is what the archive will be: the generator's bytes, compressed. */
  datatype Request = Request(artifact: Name, partial: Name, whole: seq<byte>, stage: Stage)

  datatype State = State(files: map<Name, seq<byte>>, requests: seq<Request>)

  datatype Event =
    | Ask(artifact: Name, suffix: seq<byte>, whole: seq<byte>)
    | Write(i: nat, upTo: nat)
    | Break(i: nat)
    | Link(i: nat, links: bool)
    | Rename(i: nat)
    | Remove(i: nat)
    | Kill
    | Sweep(name: Name)

  predicate Enabled(s: State, e: Event) {
    match e
    case Ask(artifact, suffix, whole) =>
      && IsArtifact(artifact) && !TwoDots(artifact) && IsSuffix(suffix) && PartialName(artifact, suffix) !in s.files
      && forall r :: r in s.requests ==> r.partial != PartialName(artifact, suffix)
    case Write(i, upTo) =>
      i < |s.requests| && s.requests[i].stage.Writing? && s.requests[i].stage.written <= upTo <= |s.requests[i].whole|
    case Break(i) => i < |s.requests| && (s.requests[i].stage.Writing? || s.requests[i].stage.Renaming?)
    case Link(i, _) =>
      i < |s.requests| && s.requests[i].stage == Writing(|s.requests[i].whole|) && s.requests[i].partial in s.files
    case Rename(i) => i < |s.requests| && s.requests[i].stage.Renaming? && s.requests[i].partial in s.files
    case Remove(i) => i < |s.requests| && (s.requests[i].stage.Linked? || s.requests[i].stage.Failing?)
    case Kill => true
    case Sweep(name) => name in s.files && LooksLeftBehind(name)
  }

  function At(s: State, i: nat, stage: Stage): seq<Request>
    requires i < |s.requests|
  {
    s.requests[i := s.requests[i].(stage := stage)]
  }

  /** What is written to a file that was swept is written to none; a link is refused when the name is taken, and where there are no links at all
      a rename does it; a failure removes the partial; a kill leaves everything where it is. */
  function Step(s: State, e: Event): State {
    if !Enabled(s, e) then s
    else match e
      case Ask(artifact, suffix, whole) =>
        var partial := PartialName(artifact, suffix);
        State(s.files[partial := []], s.requests + [Request(artifact, partial, whole, Writing(0))])
      case Write(i, upTo) =>
        var r := s.requests[i];
        State(if r.partial in s.files then s.files[r.partial := r.whole[..upTo]] else s.files, At(s, i, Writing(upTo)))
      case Break(i) => s.(requests := At(s, i, Failing))
      case Link(i, links) =>
        var r := s.requests[i];
        if r.artifact in s.files then s.(requests := At(s, i, Failing))
        else if !links then s.(requests := At(s, i, Renaming))
        else State(s.files[r.artifact := s.files[r.partial]], At(s, i, Linked))
      case Rename(i) =>
        var r := s.requests[i];
        State((s.files - {r.partial})[r.artifact := s.files[r.partial]], At(s, i, Published))
      case Remove(i) =>
        State(s.files - {s.requests[i].partial}, At(s, i, if s.requests[i].stage.Linked? then Published else Over))
      case Kill => s.(requests := [])
      case Sweep(name) => s.(files := s.files - {name})
  }

  function After(files: map<Name, seq<byte>>, events: seq<Event>): State
    decreases |events|
  {
    if events == [] then State(files, []) else Step(After(files, events[..|events| - 1]), events[|events| - 1])
  }

  /* ── What every run keeps ────────────────────────────────────────── */

  /** Asked for, whole, under this name, at some time. */
  predicate Asked(events: seq<Event>, artifact: Name, whole: seq<byte>) {
    exists k :: 0 <= k < |events| && events[k].Ask? && events[k].artifact == artifact && events[k].whole == whole
  }

  predicate Unfinished(r: Request) { r.stage.Writing? || r.stage.Renaming? }

  predicate RequestKept(r: Request, files: map<Name, seq<byte>>, events: seq<Event>) {
    && IsArtifact(r.artifact) && !IsArtifact(r.partial) && Asked(events, r.artifact, r.whole)
    && (r.stage.Writing? ==> r.stage.written <= |r.whole|)
    && (Unfinished(r) && r.partial in files ==>
          files[r.partial] == if r.stage.Writing? then r.whole[..r.stage.written] else r.whole)
  }

  predicate RequestsKept(s: State, events: seq<Event>) {
    && (forall i :: 0 <= i < |s.requests| ==> RequestKept(s.requests[i], s.files, events))
    && (forall i, j :: 0 <= i < j < |s.requests| ==> s.requests[i].partial != s.requests[j].partial)
  }

  /** What has an archive's name was there before, or is the whole of an archive that was asked for under it. */
  predicate ArchivesKept(now: map<Name, seq<byte>>, files: map<Name, seq<byte>>, events: seq<Event>) {
    forall name :: name in now && IsArtifact(name) ==>
      (name in files && now[name] == files[name]) || Asked(events, name, now[name])
  }

  lemma AskedStill(events: seq<Event>, e: Event, artifact: Name, whole: seq<byte>)
    requires Asked(events, artifact, whole)
    ensures Asked(events + [e], artifact, whole)
  {
    var k :| 0 <= k < |events| && events[k].Ask? && events[k].artifact == artifact && events[k].whole == whole;
    assert (events + [e])[k] == events[k];
  }

  lemma RequestStill(r: Request, a: map<Name, seq<byte>>, b: map<Name, seq<byte>>, events: seq<Event>, e: Event)
    requires RequestKept(r, a, events)
    requires r.partial in b ==> r.partial in a && b[r.partial] == a[r.partial]
    ensures RequestKept(r, b, events + [e])
  {
    hide Asked, IsArtifact;
    AskedStill(events, e, r.artifact, r.whole);
  }

  /** What a step may do to the files, when one request is at work. */
  predicate FilesMove(a: map<Name, seq<byte>>, b: map<Name, seq<byte>>, partial: Name, events: seq<Event>) {
    forall name :: name in b && name != partial ==>
      (name in a && b[name] == a[name]) || (IsArtifact(name) && Asked(events, name, b[name]))
  }

  lemma ArchivesStill(a: map<Name, seq<byte>>, b: map<Name, seq<byte>>, partial: Name, files: map<Name, seq<byte>>, events: seq<Event>, e: Event)
    requires ArchivesKept(a, files, events) && FilesMove(a, b, partial, events) && !IsArtifact(partial)
    ensures ArchivesKept(b, files, events + [e])
  {
    hide Asked, IsArtifact;
    forall name | name in b && IsArtifact(name)
      ensures (name in files && b[name] == files[name]) || Asked(events + [e], name, b[name])
    {
      if Asked(events, name, b[name]) {
        AskedStill(events, e, name, b[name]);
      }
    }
  }

  lemma OneGoesOn(s: State, t: State, events: seq<Event>, e: Event, i: nat, r: Request)
    requires RequestsKept(s, events) && i < |s.requests| && t.requests == s.requests[i := r]
    requires r.partial == s.requests[i].partial && RequestKept(r, t.files, events)
    requires FilesMove(s.files, t.files, r.partial, events)
    ensures RequestsKept(t, events + [e])
  {
    hide Asked, IsArtifact;
    forall j | 0 <= j < |t.requests|
      ensures RequestKept(t.requests[j], t.files, events + [e])
    {
      if j == i {
        RequestStill(r, t.files, t.files, events, e);
      } else {
        assert s.requests[j].partial != r.partial && RequestKept(s.requests[j], s.files, events);
        RequestStill(s.requests[j], s.files, t.files, events, e);
      }
    }
  }

  /** The request an event is about, after it. */
  function Now(s: State, e: Event): Request
    requires Enabled(s, e) && !e.Ask? && !e.Kill? && !e.Sweep?
  {
    Step(s, e).requests[e.i]
  }

  lemma ItsFiles(s: State, e: Event, events: seq<Event>)
    requires RequestsKept(s, events) && Enabled(s, e) && !e.Ask? && !e.Kill? && !e.Sweep?
    ensures Step(s, e).requests == s.requests[e.i := Now(s, e)] && Now(s, e).partial == s.requests[e.i].partial
    ensures RequestKept(Now(s, e), Step(s, e).files, events)
    ensures FilesMove(s.files, Step(s, e).files, Now(s, e).partial, events)
  {
    hide Asked, IsArtifact;
    assert RequestKept(s.requests[e.i], s.files, events);
    var whole := s.requests[e.i].whole;
    assert whole[..|whole|] == whole;
  }

  lemma StepKeeps(s: State, files: map<Name, seq<byte>>, events: seq<Event>, e: Event)
    requires RequestsKept(s, events) && ArchivesKept(s.files, files, events)
    ensures RequestsKept(Step(s, e), events + [e]) && ArchivesKept(Step(s, e).files, files, events + [e])
  {
    hide Asked, IsArtifact, RequestKept, LooksLeftBehind;
    var t := Step(s, e);
    if Enabled(s, e) && e.Ask? {
      NewRequest(s, files, events, e);
    } else if !Enabled(s, e) || e.Kill? || e.Sweep? {
      NoRequest(s, files, events, e);
    } else {
      ItsFiles(s, e, events);
      OneGoesOn(s, t, events, e, e.i, Now(s, e));
      NoArtifact(Now(s, e), t.files, events);
      ArchivesStill(s.files, t.files, Now(s, e).partial, files, events, e);
    }
  }

  lemma NoArtifact(r: Request, files: map<Name, seq<byte>>, events: seq<Event>)
    requires RequestKept(r, files, events)
    ensures !IsArtifact(r.partial)
  {
  }

  lemma NewRequest(s: State, files: map<Name, seq<byte>>, events: seq<Event>, e: Event)
    requires RequestsKept(s, events) && ArchivesKept(s.files, files, events) && e.Ask? && Enabled(s, e)
    ensures RequestsKept(Step(s, e), events + [e]) && ArchivesKept(Step(s, e).files, files, events + [e])
  {
    hide Asked, IsArtifact, RequestKept;
    var t, partial := Step(s, e), PartialName(e.artifact, e.suffix);
    PartialIsNoArtifact(e.artifact, e.suffix);
    IsKept(s, events, e);
    ArchivesStill(s.files, t.files, partial, files, events, e);
    forall j | 0 <= j < |s.requests|
      ensures RequestKept(t.requests[j], t.files, events + [e])
    {
      RequestStill(s.requests[j], s.files, t.files, events, e);
    }
  }

  lemma IsKept(s: State, events: seq<Event>, e: Event)
    requires e.Ask? && Enabled(s, e)
    ensures RequestKept(Step(s, e).requests[|s.requests|], Step(s, e).files, events + [e])
  {
    hide IsArtifact;
    PartialIsNoArtifact(e.artifact, e.suffix);
    assert (events + [e])[|events|] == e;
    assert e.whole[..0] == [];
  }

  lemma NoRequest(s: State, files: map<Name, seq<byte>>, events: seq<Event>, e: Event)
    requires RequestsKept(s, events) && ArchivesKept(s.files, files, events) && (!Enabled(s, e) || e.Kill? || e.Sweep?)
    ensures RequestsKept(Step(s, e), events + [e]) && ArchivesKept(Step(s, e).files, files, events + [e])
  {
    hide Asked, IsArtifact, RequestKept, LooksLeftBehind;
    var t := Step(s, e);
    forall j | 0 <= j < |t.requests|
      ensures RequestKept(t.requests[j], t.files, events + [e])
    {
      RequestStill(s.requests[j], s.files, t.files, events, e);
    }
    forall name | name in t.files && IsArtifact(name)
      ensures (name in files && t.files[name] == files[name]) || Asked(events + [e], name, t.files[name])
    {
      if Asked(events, name, t.files[name]) {
        AskedStill(events, e, name, t.files[name]);
      }
    }
  }

  lemma {:induction false} AlwaysKept(files: map<Name, seq<byte>>, events: seq<Event>)
    ensures RequestsKept(After(files, events), events) && ArchivesKept(After(files, events).files, files, events)
    decreases |events|
  {
    hide RequestKept, Asked, IsArtifact, Step;
    if events != [] {
      var before, last := events[..|events| - 1], events[|events| - 1];
      AlwaysKept(files, before);
      StepKeeps(After(files, before), files, before, last);
      assert before + [last] == events;
    }
  }

  /** Whenever the agent is killed, whatever is listed is whole: as it was, or as one request's archive of that name was to be. */
  lemma NoPartIsEverListed(files: map<Name, seq<byte>>, events: seq<Event>, name: Name)
    requires name in After(files, events).files && IsArtifact(name)
    ensures var content := After(files, events).files[name];
      (name in files && content == files[name]) || Asked(events, name, content)
  {
    AlwaysKept(files, events);
  }

  /** The rename that stands in for a link, over an archive of that name that is another. */
  predicate Replaces(s: State, e: Event, name: Name) {
    && e.Rename? && Enabled(s, e) && s.requests[e.i].artifact == name
    && name in s.files && s.files[s.requests[e.i].partial] != s.files[name]
  }

  /** What becomes of a listed archive in one step: a sweep takes it exactly when its name looks left behind, and its content
      changes exactly when such a rename replaces it. */
  lemma WhatBecomesOfAnArchive(s: State, e: Event, events: seq<Event>, name: Name)
    requires RequestsKept(s, events) && name in s.files && IsArtifact(name)
    ensures name !in Step(s, e).files <==> e == Sweep(name) && LooksLeftBehind(name)
    ensures name in Step(s, e).files && Step(s, e).files[name] != s.files[name] <==> Replaces(s, e, name)
  {
    hide Asked, IsArtifact, LooksLeftBehind;
    if Enabled(s, e) {
      if e.Ask? {
        PartialIsNoArtifact(e.artifact, e.suffix);
      } else if !e.Kill? && !e.Sweep? {
        assert RequestKept(s.requests[e.i], s.files, events);
      }
    }
  }

  /** None of these steps, in the state it is taken in, sweeps the archive or replaces it. */
  predicate LeftAlone(files: map<Name, seq<byte>>, events: seq<Event>, more: seq<Event>, name: Name)
    decreases |more|
  {
    more == [] ||
    (LeftAlone(files, events, more[..|more| - 1], name)
     && !Replaces(After(files, events + more[..|more| - 1]), more[|more| - 1], name)
     && !(more[|more| - 1] == Sweep(name) && LooksLeftBehind(name)))
  }

  /** Over any run: what is published stays as it is until one of those two things happens to that very name. */
  lemma {:induction false} OnlyARenameReplaces(files: map<Name, seq<byte>>, events: seq<Event>, more: seq<Event>, name: Name)
    requires name in After(files, events).files && IsArtifact(name) && LeftAlone(files, events, more, name)
    ensures var t := After(files, events + more); name in t.files && t.files[name] == After(files, events).files[name]
    decreases |more|
  {
    hide IsArtifact, LooksLeftBehind, Asked, Replaces;
    if more == [] {
      assert events + more == events;
    } else {
      var front := more[..|more| - 1];
      OnlyARenameReplaces(files, events, front, name);
      AlwaysKept(files, events + front);
      assert (events + more)[..|events + more| - 1] == events + front;
      WhatBecomesOfAnArchive(After(files, events + front), more[|more| - 1], events + front, name);
    }
  }

  /** And that happens where links are refused: the name is free when the first tries its link, and taken when it renames. */
  lemma ARenameReplaces(s: State, events: seq<Event>, i: nat, j: nat)
    requires RequestsKept(s, events) && i < |s.requests| && j < |s.requests| && i != j
    requires Enabled(s, Link(i, false)) && Enabled(s, Link(j, true))
    requires s.requests[i].artifact == s.requests[j].artifact && s.requests[i].artifact !in s.files
    ensures var linked := Step(Step(s, Link(i, false)), Link(j, true));
      var renamed := Step(linked, Rename(i));
      var name := s.requests[i].artifact;
      && name in linked.files && linked.files[name] == s.requests[j].whole
      && name in renamed.files && renamed.files[name] == s.requests[i].whole
  {
    hide Asked, IsArtifact;
    var r, t := s.requests[i], s.requests[j];
    assert RequestKept(r, s.files, events) && RequestKept(t, s.files, events);
    assert r.whole[..|r.whole|] == r.whole && t.whole[..|t.whole|] == t.whole;
    var one := Step(s, Link(i, false));
    assert one == State(s.files, s.requests[i := r.(stage := Renaming)]);
    var linked := Step(one, Link(j, true));
    assert linked.files == s.files[r.artifact := t.whole];
    assert linked.requests[i] == r.(stage := Renaming);
  }

  /* ── One request from its beginning to its end ───────────────────── */

  /** Asked for, and written so far. */
  function Written(s: State, artifact: Name, suffix: seq<byte>, whole: seq<byte>, upTo: nat): State {
    Step(Step(s, Ask(artifact, suffix, whole)), Write(|s.requests|, upTo))
  }

  lemma WrittenIs(s: State, artifact: Name, suffix: seq<byte>, whole: seq<byte>, upTo: nat)
    requires Enabled(s, Ask(artifact, suffix, whole)) && upTo <= |whole|
    ensures var partial := PartialName(artifact, suffix);
      && partial != artifact && partial !in s.files
      && Written(s, artifact, suffix, whole, upTo)
         == State(s.files[partial := whole[..upTo]], s.requests + [Request(artifact, partial, whole, Writing(upTo))])
  {
    hide IsArtifact;
    PartialIsNoArtifact(artifact, suffix);
    var partial, i := PartialName(artifact, suffix), |s.requests|;
    var asked := Step(s, Ask(artifact, suffix, whole));
    assert asked == State(s.files[partial := []], s.requests + [Request(artifact, partial, whole, Writing(0))]);
    assert asked.requests[i := Request(artifact, partial, whole, Writing(upTo))]
        == s.requests + [Request(artifact, partial, whole, Writing(upTo))];
  }

  /** A request that goes well adds its archive and nothing else, by a link or where there are none by a rename; one whose name is
      taken changes nothing. */
  lemma WhatARequestAdds(s: State, artifact: Name, suffix: seq<byte>, whole: seq<byte>, links: bool)
    requires Enabled(s, Ask(artifact, suffix, whole))
    ensures var i, written := |s.requests|, Written(s, artifact, suffix, whole, |whole|);
      var tried := Step(written, Link(i, links));
      var ended := Step(tried, if links || artifact in s.files then Remove(i) else Rename(i));
      && ended.files == (if artifact in s.files then s.files else s.files[artifact := whole])
      && |ended.requests| == i + 1 && ended.requests[i].stage == if artifact in s.files then Over else Published
  {
    hide IsArtifact;
    WrittenIs(s, artifact, suffix, whole, |whole|);
    var i, partial, written := |s.requests|, PartialName(artifact, suffix), Written(s, artifact, suffix, whole, |whole|);
    assert whole[..|whole|] == whole;
    var tried := Step(written, Link(i, links));
    var ended := Step(tried, if links || artifact in s.files then Remove(i) else Rename(i));
    assert written.files - {partial} == s.files;
    if artifact !in s.files {
      assert ended.files == s.files[artifact := whole];
    }
  }

  /** One that fails while it is written leaves nothing, and of one that was killed there the sweep leaves nothing. */
  lemma WhatAFailureLeaves(s: State, artifact: Name, suffix: seq<byte>, whole: seq<byte>, upTo: nat)
    requires Enabled(s, Ask(artifact, suffix, whole)) && upTo <= |whole|
    ensures var i, written := |s.requests|, Written(s, artifact, suffix, whole, upTo);
      && Step(Step(written, Break(i)), Remove(i)).files == s.files
      && Step(Step(written, Kill), Sweep(PartialName(artifact, suffix))) == State(s.files, [])
  {
    hide IsArtifact, LooksLeftBehind;
    WrittenIs(s, artifact, suffix, whole, upTo);
    PartialIsNoArtifact(artifact, suffix);
    var partial, written := PartialName(artifact, suffix), Written(s, artifact, suffix, whole, upTo);
    assert written.files - {partial} == s.files;
  }
}
