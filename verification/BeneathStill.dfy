/** The same walk on a tree nobody else changes: it ends, and starting again from the root at every link finds what going on
    from where the link is would find. */
module BeneathStill {
  import opened Bytes
  import opened ArchivePath
  import opened Beneath
  import opened BeneathPaths

  /* ── A tree that is only the walk's to change ────────────────────── */

  /** Every directory has its place, its entries are names, and the kernel's path for it is the one it has. */
  ghost predicate Sound(k: Kernel, realRoot: Path) {
    && IsDirectory(k, k.root) && IsPath(realRoot)
    && k.root in k.where && k.where[k.root] == realRoot
    && (forall i :: i in k.inodes ==> i < k.next && (k.inodes[i].Symlink? ==> NUL !in k.inodes[i].target))
    && forall d :: IsDirectory(k, d) ==> SoundAt(k, d)
  }

  ghost predicate SoundAt(k: Kernel, d: Ino)
    requires IsDirectory(k, d)
  {
    && d in k.where && IsPath(k.where[d])
    && forall n :: n in k.inodes[d].entries ==>
         && IsName(n) && k.inodes[d].entries[n] in k.inodes
         && (IsDirectory(k, k.inodes[d].entries[n]) ==>
               k.inodes[d].entries[n] in k.where && k.where[k.inodes[d].entries[n]] == k.where[d] + [n])
  }

  /** What mkdir leaves: an empty directory under the name, unless something has it. */
  function MadeDir(k: Kernel, d: Ino, name: Name): Kernel
    requires IsDirectory(k, d)
  {
    if name in k.inodes[d].entries || d !in k.where then k
    else k.(inodes := k.inodes[d := Directory(k.inodes[d].entries[name := k.next])][k.next := Directory(map[])],
            up := k.up[k.next := d], where := k.where[k.next := k.where[d] + [name]], next := k.next + 1)
  }

  /** The tree after the walk's own call. */
  function AfterCall(k: Kernel, w: Walk): Kernel {
    if w.phase == Make && IsDirectory(k, w.dir) && w.at < |w.queue| then MadeDir(k, w.dir, w.queue[w.at]) else k
  }

  /* ── Going on in place ───────────────────────────────────────────── */

  datatype Answer = At(dir: Ino, name: Name, logical: Path) | No(why: Problem)

  function CommonPrefix(a: Path, b: Path): (c: nat)
    ensures c <= |a| && c <= |b| && a[..c] == b[..c]
  {
    if a == [] || b == [] || a[0] != b[0] then 0
    else
      var c := CommonPrefix(a[1..], b[1..]);
      assert a[..c + 1] == [a[0]] + a[1..][..c] && b[..c + 1] == [b[0]] + b[1..][..c];
      c + 1
  }

  /** A path that ends on a directory it went into: the directory, by its name in the one above. */
  function Settle(here: Path, trail: seq<Ino>): Answer
    requires |trail| == |here| + 1
  {
    if here == [] then At(trail[0], [], []) else At(trail[|here| - 1], here[|here| - 1], here[..|here| - 1])
  }

  /** A resolver that stands in a directory (its path `here`, the directories down to it `trail`) and goes on from there at a
      link: up to where the link's path parts from its own, then down. A trailing slash in a link costs it a link, as the walk's
      descriptor does. */
  function InPlace(k: Kernel, realRoot: Path, o: Options, here: Path, trail: seq<Ino>, queue: seq<Name>, links: nat): (Answer, Kernel)
    requires |trail| == |here| + 1
    decreases MAX_LINKS - links, |queue|
  {
    if queue == [] then (Settle(here, trail), k)
    else
      var name, rest, dir := queue[0], queue[1..], trail[|here|];
      if name == [] then
        if rest == [] && !o.followLast then (At(dir, [], here), k)
        else if links + 1 > MAX_LINKS then (No(TooManyLinks), k)
        else InPlace(k, realRoot, o, here, trail, rest, links + 1)
      else if name == [DOT] then
        if rest == [] then (At(dir, [DOT], here), k) else InPlace(k, realRoot, o, here, trail, rest, links)
      else if LinkAt(k, dir, name) && (rest != [] || o.followLast) then
        if links + 1 > MAX_LINKS then (No(TooManyLinks), k)
        else
          match AfterLink(here, k.inodes[k.inodes[dir].entries[name]].target, realRoot)
          case Err(e) => (No(e), k)
          case Ok(parts) =>
            var c := CommonPrefix(here, parts);
            InPlace(k, realRoot, o, here[..c], trail[..c + 1], parts[c..] + rest, links + 1)
      else if rest == [] then (At(dir, name, here), k)
      else
        match OpenAt(k, dir, name)
        case Held(next) => InPlace(k, realRoot, o, here + [name], trail + [next], rest, links)
        case NotDirectory => (No(NotADirectoryThere), k)
        case NoEntry =>
          if !o.create then (No(NoSuchDirectory), k)
          else if !IsDirectory(k, dir) then (No(Gone), k)
          else InPlace(MadeDir(k, dir, name), realRoot, o, here + [name], trail + [k.next], rest, links)
  }

  /** `trail` is the directories from the root along `here`. */
  ghost predicate Chain(k: Kernel, here: Path, trail: seq<Ino>) {
    && |trail| == |here| + 1 && trail[0] == k.root && IsPath(here)
    && (forall i :: 0 <= i <= |here| ==> IsDirectory(k, trail[i]))
    && forall i :: 0 <= i < |here| ==> here[i] in k.inodes[trail[i]].entries && k.inodes[trail[i]].entries[here[i]] == trail[i + 1]
  }

  lemma {:induction false} ChainWhere(k: Kernel, realRoot: Path, here: Path, trail: seq<Ino>, i: nat)
    requires Sound(k, realRoot) && Chain(k, here, trail) && i <= |here|
    ensures trail[i] in k.where && k.where[trail[i]] == realRoot + here[..i]
    decreases i
  {
    if i == 0 {
      assert realRoot + here[..0] == realRoot;
    } else {
      ChainWhere(k, realRoot, here, trail, i - 1);
      assert SoundAt(k, trail[i - 1]);
      assert realRoot + here[..i - 1] + [here[i - 1]] == realRoot + here[..i];
    }
  }

  /** Walking again along directories that were walked arrives where it was. */
  lemma {:induction false} Rewalk(k: Kernel, realRoot: Path, o: Options, here: Path, trail: seq<Ino>, queue: seq<Name>, links: nat, i: nat)
    requires Chain(k, here, trail) && i <= |here|
    ensures InPlace(k, realRoot, o, here[..i], trail[..i + 1], here[i..] + queue, links)
         == InPlace(k, realRoot, o, here, trail, queue, links)
    decreases |here| - i
  {
    hide AfterLink, InPlace;
    if i == |here| {
      assert here[..i] == here && trail[..i + 1] == trail && here[i..] + queue == queue;
    } else {
      Rewalk(k, realRoot, o, here, trail, queue, links, i + 1);
      OneDown(k, realRoot, o, here, trail, queue, links, i);
    }
  }

  lemma OneDown(k: Kernel, realRoot: Path, o: Options, here: Path, trail: seq<Ino>, queue: seq<Name>, links: nat, i: nat)
    requires Chain(k, here, trail) && i < |here|
    ensures InPlace(k, realRoot, o, here[..i], trail[..i + 1], here[i..] + queue, links)
         == InPlace(k, realRoot, o, here[..i + 1], trail[..i + 2], here[i + 1..] + queue, links)
  {
    hide AfterLink;
    var all := here[i..] + queue;
    var name, rest, dir := here[i], here[i + 1..] + queue, trail[i];
    assert all[0] == name && all[1..] == rest;
    assert here[i] in here && IsName(name);
    assert trail[..i + 1][|here[..i]|] == dir && IsDirectory(k, dir) && IsDirectory(k, trail[i + 1]);
    assert !LinkAt(k, dir, name) && OpenAt(k, dir, name) == Held(trail[i + 1]);
    assert here[..i] + [name] == here[..i + 1] && trail[..i + 1] + [trail[i + 1]] == trail[..i + 2];
    if rest == [] {
      assert i + 1 == |here|;
      assert here[..i + 1][..i] == here[..i];
    }
  }

  /** A path along directories is answered with the last of them and the name in it, be it there or not, and with a link itself when
      the last is not to be followed. */
  lemma AskedByItsPath(k: Kernel, realRoot: Path, o: Options, here: Path, trail: seq<Ino>, last: Name)
    requires Chain(k, here, trail) && IsName(last) && forall n :: n in here + [last] ==> BACKSLASH !in n
    requires !LinkAt(k, trail[|here|], last) || !o.followLast
    ensures PartsOf(Join(here + [last], SLASH)) == Ok(here + [last])
    ensures InPlace(k, realRoot, o, [], [k.root], here + [last], 0) == (At(trail[|here|], last, here), k)
  {
    hide AfterLink, PartsOf, Join;
    forall n | n in here + [last] ensures IsName(n) && BACKSLASH !in n { assert n in here || n == last; }
    NamesAreThemselves(here + [last]);
    Rewalk(k, realRoot, o, here, trail, [last], 0, 0);
    assert here[..0] == [] && here[0..] == here && trail[..1] == [k.root];
  }

  /** A path that goes through something missing, or through something that is neither a directory nor a link. */
  lemma AskedThrough(k: Kernel, realRoot: Path, o: Options, here: Path, trail: seq<Ino>, name: Name, last: Name)
    requires Sound(k, realRoot) && Chain(k, here, trail) && IsName(name) && IsName(last) && !LinkAt(k, trail[|here|], name)
    ensures var there := k.inodes[trail[|here|]].entries;
      var answer := InPlace(k, realRoot, o, [], [k.root], here + [name, last], 0);
      && (name in there && !IsDirectory(k, there[name]) ==> answer == (No(NotADirectoryThere), k))
      && (name !in there && !o.create ==> answer == (No(NoSuchDirectory), k))
      && (name !in there && o.create ==> answer == (At(k.next, last, here + [name]), MadeDir(k, trail[|here|], name)))
  {
    hide AfterLink, InPlace;
    Rewalk(k, realRoot, o, here, trail, [name, last], 0, 0);
    assert here[..0] == [] && here[0..] == here && trail[..1] == [k.root];
    ThroughOne(k, realRoot, o, here, trail, name, last);
  }

  lemma ThroughOne(k: Kernel, realRoot: Path, o: Options, here: Path, trail: seq<Ino>, name: Name, last: Name)
    requires Sound(k, realRoot) && Chain(k, here, trail) && IsName(name) && IsName(last) && !LinkAt(k, trail[|here|], name)
    ensures var there := k.inodes[trail[|here|]].entries;
      var answer := InPlace(k, realRoot, o, here, trail, [name, last], 0);
      && (name in there && !IsDirectory(k, there[name]) ==> answer == (No(NotADirectoryThere), k))
      && (name !in there && !o.create ==> answer == (No(NoSuchDirectory), k))
      && (name !in there && o.create ==> answer == (At(k.next, last, here + [name]), MadeDir(k, trail[|here|], name)))
  {
    hide AfterLink;
    var queue := [name, last];
    assert queue[1..] == [last];
    var dir := trail[|here|];
    assert SoundAt(k, dir);
    if name !in k.inodes[dir].entries && o.create {
      var made, longer := MadeDir(k, dir, name), trail + [k.next];
      assert longer[|here + [name]|] == k.next && !LinkAt(made, k.next, last);
    }
  }

  /* ── The paths of links ──────────────────────────────────────────── */

  lemma PathTextReadsBack(p: Path)
    requires IsPath(p)
    ensures Resolve([], Split(PathText(p), SLASH)) == p
  {
    var text := PathText(p);
    if p == [] {
      assert text == [SLASH];
      assert IndexOf(text, SLASH, 0) == 0 && text[1..] == [];
      assert Split(text, SLASH) == [[]] + Split([], SLASH) == [[], []];
      assert Resolve([], [[], []]) == Resolve([], [[], []][1..]);
      assert Resolve([], [[]]) == Resolve([], [[]][1..]);
    } else {
      assert Join([[]] + p, SLASH) == text by { assert ([[]] + p)[1..] == p; }
      assert forall n :: n in [[]] + p ==> SLASH !in n;
      SplitJoin([[]] + p, SLASH);
      assert ([[]] + p)[1..] == p;
      assert Resolve([], [[]] + p) == Resolve([], p);
      ResolveNames([], p);
      assert [] + p == p;
    }
  }

  /** The kernel's path of a held directory leads back to it. */
  lemma OwnPathLeadsBack(inside: seq<Name>, here: Path, realRoot: Path)
    requires IsPath(realRoot) && IsPath(here)
    ensures AfterLink(inside, PathText(realRoot + here), realRoot) == Ok(here)
  {
    hide Split, Resolve;
    forall n | n in realRoot + here ensures IsName(n) {}
    PathTextReadsBack(realRoot + here);
    assert realRoot <= realRoot + here && (realRoot + here)[|realRoot|..] == here;
  }

  /* The system's texts hold no NUL, and nothing here makes one. */

  predicate NulFree(parts: seq<Name>) { forall i :: 0 <= i < |parts| ==> NUL !in parts[i] }

  lemma {:induction false} SquashNulFree(stack: seq<Name>, parts: seq<Name>)
    requires NulFree(stack) && NulFree(parts)
    ensures NulFree(Squash(stack, parts))
    decreases |parts|
  {
    if parts != [] {
      SquashNulFree(Push(stack, parts[0]), parts[1..]);
    }
  }

  lemma {:induction false} ResolveNulFree(at: Path, parts: seq<Name>)
    requires NulFree(at) && NulFree(parts)
    ensures NulFree(Resolve(at, parts))
    decreases |parts|
  {
    if parts != [] {
      ResolveNulFree(Enter(at, parts[0]), parts[1..]);
    }
  }

  lemma SplitNulFree(text: seq<byte>)
    requires NUL !in text
    ensures NulFree(Split(text, SLASH))
  {
    hide Split;
    SplitParts(text, SLASH);
    var parts := Split(text, SLASH);
    forall i | 0 <= i < |parts| ensures NUL !in parts[i] { assert parts[i] in parts; }
  }

  lemma NormalNulFree(text: seq<byte>)
    requires NUL !in text
    ensures NulFree(NormalParts(text))
  {
    hide Squash, Split;
    SplitNulFree(text);
    SquashNulFree([], Split(text, SLASH));
  }

  lemma LinksAreNulFree(inside: seq<Name>, target: seq<byte>, realRoot: Path)
    requires NulFree(inside) && NUL !in target
    ensures AfterLink(inside, target, realRoot).Ok? ==> NulFree(AfterLink(inside, target, realRoot).value)
  {
    hide Squash, Split, Resolve, Join, NormalParts;
    SplitNulFree(target);
    ResolveNulFree([], Split(target, SLASH));
    var all := inside + [target];
    forall n | n in all ensures NUL !in n { }
    JoinBytes(all, NUL);
    NormalNulFree(Join(all, SLASH));
  }

  lemma RequestsAreNulFree(requested: seq<byte>)
    requires PartsOf(requested).Ok?
    ensures NulFree(PartsOf(requested).value)
  {
    hide NormalParts;
    StripLeadingBytes(Unbackslashed(requested));
    var text := StripLeading(Unbackslashed(requested));
    NormalNulFree(text);
    NonEmptyParts(NormalParts(text));
    var parts := NonEmpty(NormalParts(text));
    forall i | 0 <= i < |parts| ensures NUL !in parts[i] { assert parts[i] in parts; }
  }

  lemma {:induction false} StripLeadingBytes(text: seq<byte>)
    ensures forall b :: b in StripLeading(text) ==> b in text
  {
    if text != [] && text[0] == SLASH { StripLeadingBytes(text[1..]); }
  }

  lemma PathIsNulFree(p: Path)
    requires IsPath(p)
    ensures NulFree(p)
  {
    forall i | 0 <= i < |p| ensures NUL !in p[i] { assert p[i] in p; }
  }

  /** A "." among the parts of a path that was normalized is all of it, but for the slash after it. */
  predicate Dotted(queue: seq<Name>) {
    forall i :: 0 <= i < |queue| && queue[i] == [DOT] ==> i == |queue| - 1 || queue[i + 1] == []
  }

  lemma {:induction false} ResolveHasNoDot(at: Path, parts: seq<Name>)
    requires NoDots(at)
    ensures NoDots(Resolve(at, parts))
    decreases |parts|
  {
    if parts != [] {
      ResolveHasNoDot(Enter(at, parts[0]), parts[1..]);
    }
  }

  /** What a link leads to: plain parts, or the link's own directory closed with a slash. */
  lemma LinksAreDotted(inside: seq<Name>, target: seq<byte>, realRoot: Path, rest: seq<Name>)
    requires AfterLink(inside, target, realRoot).Ok? && Dotted(rest)
    ensures Dotted(AfterLink(inside, target, realRoot).value + rest)
  {
    hide Split, Join, Squash, Resolve;
    var parts := AfterLink(inside, target, realRoot).value;
    if target != [] && target[0] == SLASH {
      ResolveHasNoDot([], Split(target, SLASH));
      assert NoDots(parts);
    } else {
      SquashHasNoDot([], Split(Join(inside + [target], SLASH), SLASH));
      NormalDots(Join(inside + [target], SLASH));
    }
    DottedBefore(parts, rest);
  }

  /** Plain parts, perhaps with an empty one last; or "." and an empty one. */
  predicate Normalized(parts: seq<Name>) {
    || parts == [[DOT], []]
    || NoDots(parts)
    || (parts != [] && parts[|parts| - 1] == [] && NoDots(parts[..|parts| - 1]))
  }

  lemma NormalDots(text: seq<byte>)
    ensures NormalParts(text) == [[DOT]] || Normalized(NormalParts(text))
  {
    hide Squash, Split;
    var stack := Squash([], Split(text, SLASH));
    SquashHasNoDot([], Split(text, SLASH));
    if stack != [] && EndsWithSlash(text) {
      assert NormalParts(text)[..|stack|] == stack;
    }
  }

  lemma DottedBefore(parts: seq<Name>, rest: seq<Name>)
    requires Normalized(parts) && Dotted(rest)
    ensures Dotted(parts + rest)
  {
    var all := parts + rest;
    if parts != [[DOT], []] {
      forall i | 0 <= i < |parts| ensures parts[i] != [DOT] {
        assert i < |parts| - 1 ==> parts[..|parts| - 1][i] == parts[i];
      }
    }
    forall i | 0 <= i < |all| && all[i] == [DOT] ensures i == |all| - 1 || all[i + 1] == [] {
      if i >= |parts| {
        assert rest[i - |parts|] == [DOT];
      }
    }
  }

  lemma RequestsAreDotted(requested: seq<byte>)
    requires PartsOf(requested).Ok?
    ensures Dotted(PartsOf(requested).value)
  {
    hide NormalParts;
    var parts := NormalParts(StripLeading(Unbackslashed(requested)));
    NormalDots(StripLeading(Unbackslashed(requested)));
    NonEmptyOfNormal(parts);
  }

  /** A request for the root that ends in a slash ("./", "a/../") is the one that gives a component ".", where "" and "." give none. */
  lemma DotIsTheRootWithASlash(requested: seq<byte>)
    requires PartsOf(requested).Ok?
    ensures var text := StripLeading(Unbackslashed(requested));
      [DOT] in PartsOf(requested).value <==> Squash([], Split(text, SLASH)) == [] && EndsWithSlash(text)
  {
    hide Split, Squash;
    var text := StripLeading(Unbackslashed(requested));
    var stack := Squash([], Split(text, SLASH));
    SquashHasNoDot([], Split(text, SLASH));
    NonEmptyParts(NormalParts(text));
    if stack == [] && EndsWithSlash(text) {
      assert NormalParts(text)[0] == [DOT] && NormalParts(text)[1] == [];
    }
  }

  lemma NonEmptyOfNormal(parts: seq<Name>)
    requires parts == [[DOT]] || Normalized(parts)
    ensures Dotted(NonEmpty(parts))
  {
    if parts == [[DOT], []] {
      var empty: seq<Name> := [[]];
      assert parts[1..] == empty && empty[1..] == [];
      assert NonEmpty(empty) == NonEmpty([]);
      assert NonEmpty(parts) == [[DOT]];
    } else if parts != [[DOT]] {
      if NoDots(parts) {
        NonEmptyOfPlain(parts);
      } else {
        var front := parts[..|parts| - 1];
        NonEmptyOfPlain(front);
        NonEmptyAppended(front, [[]]);
        var empty: seq<Name> := [[]];
        assert parts == front + empty && empty[1..] == [];
        assert NonEmpty(empty) == NonEmpty([]);
      }
    } else {
      assert parts[1..] == [];
    }
  }

  /* ── One call of the walk is one move in place, or none ──────────── */

  /** The walk stands at `here`, down the directories `trail`; a "." it went through is forgotten with the slash that follows. */
  ghost predicate Standing(k: Kernel, realRoot: Path, o: Options, w: Walk, here: Path, trail: seq<Ino>) {
    && Sound(k, realRoot) && OnlyNames(w.queue) && NulFree(w.queue) && Dotted(w.queue) && w.links <= MAX_LINKS
    && (!o.followLast && w.queue != [] ==> w.queue[|w.queue| - 1] != [])
    && (w.phase != FromRoot ==>
          && Chain(k, here, trail) && w.dir == trail[|here|]
          && (if w.queue == [] then w.at == 0 && here == [] && w.logical == [] else w.at < |w.queue|)
          && (w.logical == here || (w.at < |w.queue| && w.queue[w.at] == [])))
    && (w.phase == ReadMiddle ==> w.at < |w.queue| - 1 && OpenAt(k, w.dir, w.queue[w.at]) == NotDirectory)
    && (w.phase == Make ==> w.at < |w.queue| - 1 && OpenAt(k, w.dir, w.queue[w.at]) == NoEntry && o.create)
    && (w.phase == ReadLast ==> w.at == |w.queue| - 1 && LinkAt(k, w.dir, w.queue[w.at]) && o.followLast)
  }

  /** What going on in place from there would answer. */
  ghost function Goal(k: Kernel, realRoot: Path, o: Options, w: Walk, here: Path, trail: seq<Ino>): (Answer, Kernel)
    requires Standing(k, realRoot, o, w, here, trail)
  {
    if w.phase == FromRoot then InPlace(k, realRoot, o, [], [k.root], w.queue, w.links)
    else InPlace(k, realRoot, o, here, trail, w.queue[w.at..], w.links)
  }

  /** How far a phase is from moving on. */
  function Rank(k: Kernel, w: Walk): nat {
    match w.phase
    case FromRoot => 4
    case Component => if w.at < |w.queue| && OpenAt(k, w.dir, w.queue[w.at]) == NoEntry then 3 else 1
    case Make => 2
    case ReadMiddle => 0
    case ReadLast => 0
  }

  ghost predicate Nearer(k: Kernel, w: Walk, k': Kernel, w': Walk) {
    || w'.links > w.links
    || (w'.links == w.links && w'.phase != FromRoot && w.phase == FromRoot)
    || (w'.links == w.links && w.phase != FromRoot && w'.phase != FromRoot && w'.queue == w.queue && w'.at == w.at + 1)
    || (w'.links == w.links && w.phase != FromRoot && w'.phase != FromRoot && w'.queue == w.queue && w'.at == w.at
          && Rank(k', w') < Rank(k, w))
  }

  /** What one call has to establish. */
  ghost predicate Agrees(k: Kernel, realRoot: Path, o: Options, w: Walk, goal: (Answer, Kernel), here: Path, trail: seq<Ino>) {
    match Step(k, realRoot, o, w)
    case On(next) =>
      && Standing(AfterCall(k, w), realRoot, o, next, here, trail)
      && Goal(AfterCall(k, w), realRoot, o, next, here, trail) == goal
      && Nearer(k, w, AfterCall(k, w), next)
    case Found(dir, name, logical) => goal == (At(dir, name, logical), k)
    case Refused(why) => goal == (No(why), k)
  }

  lemma FromTheRoot(k: Kernel, realRoot: Path, o: Options, w: Walk, here: Path, trail: seq<Ino>)
    requires Standing(k, realRoot, o, w, here, trail) && w.phase == FromRoot
    ensures Agrees(k, realRoot, o, w, Goal(k, realRoot, o, w, here, trail), [], [k.root])
  {
    hide InPlace, Sound;
    assert IsDirectory(k, k.root) && IsPath(realRoot) by { SoundRoot(k, realRoot); }
    assert w.queue[0..] == w.queue;
  }

  lemma SoundRoot(k: Kernel, realRoot: Path)
    requires Sound(k, realRoot)
    ensures IsDirectory(k, k.root) && IsPath(realRoot)
  {
  }

  /** A restart stands at the root, nearer its end by a link. */
  lemma Restarts(k: Kernel, realRoot: Path, o: Options, w: Walk, here: Path, trail: seq<Ino>, parts: seq<Name>)
    requires Standing(k, realRoot, o, w, here, trail) && (w.phase == ReadMiddle || w.phase == ReadLast) && w.links + 1 <= MAX_LINKS
    requires OnlyNames(parts) && NulFree(parts) && Dotted(parts + w.queue[w.at + 1..])
    ensures var next := Begin(parts + w.queue[w.at + 1..], w.links + 1);
      && Standing(k, realRoot, o, next, here, trail) && Nearer(k, w, k, next)
      && Goal(k, realRoot, o, next, here, trail) == InPlace(k, realRoot, o, [], [k.root], next.queue, next.links)
  {
    hide Sound, InPlace, Dotted, Chain;
    RestOfQueue(w);
    var rest := w.queue[w.at + 1..];
    assert rest != [] ==> (parts + rest)[|parts + rest| - 1] == w.queue[|w.queue| - 1];
  }

  /** Where a link restarts the walk, that is the agreement to establish. */
  lemma AgreesOnRestart(k: Kernel, realRoot: Path, o: Options, w: Walk, goal: (Answer, Kernel), here: Path, trail: seq<Ino>, target: seq<byte>)
    requires w.at < |w.queue| && w.phase != Make && Step(k, realRoot, o, w) == Restart(w, target, realRoot)
    requires if w.links + 1 > MAX_LINKS then goal == (No(TooManyLinks), k)
      else match AfterLink(w.logical, target, realRoot)
        case Err(e) => goal == (No(e), k)
        case Ok(parts) =>
          var next := Begin(parts + w.queue[w.at + 1..], w.links + 1);
          && Standing(k, realRoot, o, next, here, trail) && Nearer(k, w, k, next)
          && goal == Goal(k, realRoot, o, next, here, trail)
    ensures Agrees(k, realRoot, o, w, goal, here, trail)
  {
    hide Standing, Goal, Nearer, AfterLink, Step;
  }

  /** A link: the walk starts again from the root, and is where going on in place would be. */
  lemma AtALink(k: Kernel, realRoot: Path, o: Options, w: Walk, here: Path, trail: seq<Ino>, target: seq<byte>)
    requires Standing(k, realRoot, o, w, here, trail) && (w.phase == ReadMiddle || w.phase == ReadLast)
    requires w.queue[w.at] != [] && w.queue[w.at] != [DOT] && LinkAt(k, w.dir, w.queue[w.at])
    requires target == k.inodes[k.inodes[w.dir].entries[w.queue[w.at]]].target
    ensures Agrees(k, realRoot, o, w, Goal(k, realRoot, o, w, here, trail), here, trail)
  {
    hide AfterLink, Sound, InPlace, Dotted, Chain, CommonPrefix, Agrees;
    var rest := w.queue[w.at + 1..];
    assert w.queue[w.at..][0] == w.queue[w.at] && w.queue[w.at..][1..] == rest;
    assert w.logical == here;
    assert |trail| == |here| + 1 && IsPath(here) by { ChainLength(k, here, trail); }
    InPlaceAtALink(k, realRoot, o, here, trail, w.queue[w.at..], w.links, target);
    if w.links + 1 <= MAX_LINKS && AfterLink(here, target, realRoot).Ok? {
      var parts := AfterLink(here, target, realRoot).value;
      TargetIsNulFree(k, realRoot, k.inodes[w.dir].entries[w.queue[w.at]]);
      PartsOfALink(k, realRoot, o, w, here, trail, target);
      Restarts(k, realRoot, o, w, here, trail, parts);
      LinkRestarts(k, realRoot, o, here, trail, parts, rest, w.links + 1);
    }
    AgreesOnRestart(k, realRoot, o, w, Goal(k, realRoot, o, w, here, trail), here, trail, target);
  }

  lemma PartsOfALink(k: Kernel, realRoot: Path, o: Options, w: Walk, here: Path, trail: seq<Ino>, target: seq<byte>)
    requires Standing(k, realRoot, o, w, here, trail) && (w.phase == ReadMiddle || w.phase == ReadLast) && IsPath(here)
    requires NUL !in target && AfterLink(here, target, realRoot).Ok?
    ensures var parts := AfterLink(here, target, realRoot).value;
      OnlyNames(parts) && NulFree(parts) && Dotted(parts + w.queue[w.at + 1..])
  {
    hide AfterLink, Sound, Dotted, Chain;
    RestOfQueue(w);
    LinksAreDotted(here, target, realRoot, w.queue[w.at + 1..]);
    LinksLeadToNames(here, target, realRoot);
    PathIsNulFree(here);
    LinksAreNulFree(here, target, realRoot);
  }

  lemma ChainLength(k: Kernel, here: Path, trail: seq<Ino>)
    requires Chain(k, here, trail)
    ensures |trail| == |here| + 1 && IsPath(here)
  {
  }

  lemma TargetIsNulFree(k: Kernel, realRoot: Path, i: Ino)
    requires Sound(k, realRoot) && i in k.inodes && k.inodes[i].Symlink?
    ensures NUL !in k.inodes[i].target
  {
  }

  lemma InPlaceAtALink(k: Kernel, realRoot: Path, o: Options, here: Path, trail: seq<Ino>, queue: seq<Name>, links: nat, target: seq<byte>)
    requires |trail| == |here| + 1 && queue != [] && queue[0] != [] && queue[0] != [DOT]
    requires LinkAt(k, trail[|here|], queue[0]) && (queue[1..] != [] || o.followLast)
    requires target == k.inodes[k.inodes[trail[|here|]].entries[queue[0]]].target
    ensures InPlace(k, realRoot, o, here, trail, queue, links) ==
      if links + 1 > MAX_LINKS then (No(TooManyLinks), k)
      else
        match AfterLink(here, target, realRoot)
        case Err(e) => (No(e), k)
        case Ok(parts) =>
          var c := CommonPrefix(here, parts);
          InPlace(k, realRoot, o, here[..c], trail[..c + 1], parts[c..] + queue[1..], links + 1)
  {
    hide AfterLink, CommonPrefix;
  }

  lemma RestOfQueue(w: Walk)
    requires OnlyNames(w.queue) && NulFree(w.queue) && Dotted(w.queue) && w.at < |w.queue|
    ensures OnlyNames(w.queue[w.at + 1..]) && NulFree(w.queue[w.at + 1..]) && Dotted(w.queue[w.at + 1..])
  {
    var rest := w.queue[w.at + 1..];
    forall i | 0 <= i < |rest| && rest[i] == [DOT] ensures i == |rest| - 1 || rest[i + 1] == [] {
      assert w.queue[w.at + 1 + i] == [DOT];
    }
  }

  /** From the root along a link's path is the same as from where the paths part. */
  lemma LinkRestarts(k: Kernel, realRoot: Path, o: Options, here: Path, trail: seq<Ino>, parts: seq<Name>, rest: seq<Name>, links: nat)
    requires Chain(k, here, trail)
    ensures var c := CommonPrefix(here, parts);
      InPlace(k, realRoot, o, [], [k.root], parts + rest, links)
      == InPlace(k, realRoot, o, here[..c], trail[..c + 1], parts[c..] + rest, links)
  {
    hide InPlace;
    var c := CommonPrefix(here, parts);
    ShorterChain(k, here, trail, c);
    Rewalk(k, realRoot, o, here[..c], trail[..c + 1], parts[c..] + rest, links, 0);
    assert here[..c][..0] == [] && here[..c][0..] == here[..c] && trail[..c + 1][..1] == [k.root];
    assert here[..c] + (parts[c..] + rest) == parts + rest;
  }

  lemma ShorterChain(k: Kernel, here: Path, trail: seq<Ino>, c: nat)
    requires Chain(k, here, trail) && c <= |here|
    ensures Chain(k, here[..c], trail[..c + 1])
  {
  }

  lemma InPlaceAtTheDescriptor(k: Kernel, realRoot: Path, o: Options, here: Path, trail: seq<Ino>, queue: seq<Name>, links: nat)
    requires |trail| == |here| + 1 && queue != [] && queue[0] == [] && (queue[1..] != [] || o.followLast)
    ensures InPlace(k, realRoot, o, here, trail, queue, links) ==
      if links + 1 > MAX_LINKS then (No(TooManyLinks), k) else InPlace(k, realRoot, o, here, trail, queue[1..], links + 1)
  {
    hide AfterLink;
  }

  /** No name: the descriptor's own link, whose path leads back here. */
  lemma AtTheDescriptor(k: Kernel, realRoot: Path, o: Options, w: Walk, here: Path, trail: seq<Ino>)
    requires Standing(k, realRoot, o, w, here, trail) && (w.phase == ReadMiddle || w.phase == ReadLast)
    requires w.queue[w.at] == []
    ensures Agrees(k, realRoot, o, w, Goal(k, realRoot, o, w, here, trail), here, trail)
  {
    hide AfterLink, Sound, InPlace, Dotted, Agrees;
    var rest, target := w.queue[w.at + 1..], PathText(realRoot + here);
    assert w.queue[w.at..][0] == [] && w.queue[w.at..][1..] == rest;
    SoundRoot(k, realRoot);
    ChainWhere(k, realRoot, here, trail, |here|);
    assert here[..|here|] == here;
    OwnPathLeadsBack(w.logical, here, realRoot);
    InPlaceAtTheDescriptor(k, realRoot, o, here, trail, w.queue[w.at..], w.links);
    if w.links + 1 <= MAX_LINKS {
      RestOfQueue(w);
      LinksAreDotted(w.logical, target, realRoot, rest);
      LinksLeadToNames(w.logical, target, realRoot);
      PathIsNulFree(here);
      Restarts(k, realRoot, o, w, here, trail, here);
      Rewalk(k, realRoot, o, here, trail, rest, w.links + 1, 0);
      assert here[..0] == [] && here[0..] == here && trail[..1] == [k.root];
    }
    AgreesOnRestart(k, realRoot, o, w, Goal(k, realRoot, o, w, here, trail), here, trail, target);
  }

  /** A component on the way. */
  lemma OnTheWay(k: Kernel, realRoot: Path, o: Options, w: Walk, here: Path, trail: seq<Ino>) returns (here': Path, trail': seq<Ino>)
    requires Standing(k, realRoot, o, w, here, trail) && w.phase == Component && w.at < |w.queue| - 1
    ensures Agrees(k, realRoot, o, w, Goal(k, realRoot, o, w, here, trail), here', trail')
  {
    hide Agrees, Goal, Standing, Sound, OpenAt;
    here', trail' := here, trail;
    match OpenAt(k, w.dir, w.queue[w.at])
    case NotDirectory => NotThrough(k, realRoot, o, w, here, trail);
    case NoEntry => NotThrough(k, realRoot, o, w, here, trail);
    case Held(next) =>
      if w.queue[w.at] == [DOT] {
        ThroughADot(k, realRoot, o, w, here, trail);
      } else {
        here', trail' := here + [w.queue[w.at]], trail + [next];
        Through(k, realRoot, o, w, here, trail, next);
      }
  }

  lemma NotThrough(k: Kernel, realRoot: Path, o: Options, w: Walk, here: Path, trail: seq<Ino>)
    requires Standing(k, realRoot, o, w, here, trail) && w.phase == Component && w.at < |w.queue| - 1
    requires !OpenAt(k, w.dir, w.queue[w.at]).Held?
    ensures Agrees(k, realRoot, o, w, Goal(k, realRoot, o, w, here, trail), here, trail)
  {
    hide AfterLink;
    assert w.queue[w.at..][0] == w.queue[w.at] && w.queue[w.at..][1..] == w.queue[w.at + 1..];
    assert w.queue[w.at] in w.queue;
    assert SoundAt(k, w.dir);
  }

  lemma ThroughADot(k: Kernel, realRoot: Path, o: Options, w: Walk, here: Path, trail: seq<Ino>)
    requires Standing(k, realRoot, o, w, here, trail) && w.phase == Component && w.at < |w.queue| - 1
    requires OpenAt(k, w.dir, w.queue[w.at]).Held? && w.queue[w.at] == [DOT]
    ensures Agrees(k, realRoot, o, w, Goal(k, realRoot, o, w, here, trail), here, trail)
  {
    hide AfterLink;
    assert w.queue[w.at..][0] == w.queue[w.at] && w.queue[w.at..][1..] == w.queue[w.at + 1..];
    assert w.queue[w.at] in w.queue && w.queue[w.at + 1] == [];
    assert SoundAt(k, w.dir);
  }

  lemma Through(k: Kernel, realRoot: Path, o: Options, w: Walk, here: Path, trail: seq<Ino>, next: Ino)
    requires Standing(k, realRoot, o, w, here, trail) && w.phase == Component && w.at < |w.queue| - 1
    requires OpenAt(k, w.dir, w.queue[w.at]) == Held(next) && w.queue[w.at] != [DOT]
    ensures Agrees(k, realRoot, o, w, Goal(k, realRoot, o, w, here, trail), here + [w.queue[w.at]], trail + [next])
  {
    hide AfterLink;
    var name := w.queue[w.at];
    assert w.queue[w.at..][0] == name && w.queue[w.at..][1..] == w.queue[w.at + 1..];
    assert name in w.queue;
    assert SoundAt(k, w.dir);
    LongerChain(k, here, trail, name, next);
  }

  lemma LongerChain(k: Kernel, here: Path, trail: seq<Ino>, name: Name, next: Ino)
    requires Chain(k, here, trail) && IsName(name) && IsDirectory(k, next)
    requires name in k.inodes[trail[|here|]].entries && k.inodes[trail[|here|]].entries[name] == next
    ensures Chain(k, here + [name], trail + [next])
  {
    forall n | n in here + [name] ensures IsName(n) { }
  }

  /** The last component. */
  lemma AtTheEnd(k: Kernel, realRoot: Path, o: Options, w: Walk, here: Path, trail: seq<Ino>)
    requires Standing(k, realRoot, o, w, here, trail) && w.phase == Component && w.at >= |w.queue| - 1
    ensures Agrees(k, realRoot, o, w, Goal(k, realRoot, o, w, here, trail), here, trail)
  {
    hide AfterLink;
    assert SoundAt(k, w.dir);
    if w.queue == [] {
      assert w.queue[0..] == [];
    } else {
      var name := w.queue[w.at];
      assert w.queue[w.at..][0] == name && w.queue[w.at..][1..] == [];
    }
  }

  /** mkdir is one call and going in is another: the queue is as it was. */
  lemma AfterMaking(k: Kernel, realRoot: Path, o: Options, w: Walk, here: Path, trail: seq<Ino>)
    requires Standing(k, realRoot, o, w, here, trail) && w.phase == Make
    ensures Agrees(k, realRoot, o, w, Goal(k, realRoot, o, w, here, trail), here, trail)
  {
    hide AfterLink, InPlace;
    var name, rest := w.queue[w.at], w.queue[w.at + 1..];
    assert w.queue[w.at..][0] == name && w.queue[w.at..][1..] == rest;
    assert name in w.queue;
    assert SoundAt(k, w.dir);
    assert IsName(name);
    MadeIsSound(k, realRoot, w.dir, name);
    MadeKeepsChain(k, here, trail, w.dir, name);
    InPlaceAtMissing(k, realRoot, o, here, trail, w.queue[w.at..], w.links);
  }

  lemma MadeIsSound(k: Kernel, realRoot: Path, d: Ino, name: Name)
    requires Sound(k, realRoot) && IsDirectory(k, d) && IsName(name) && name !in k.inodes[d].entries
    ensures Sound(MadeDir(k, d, name), realRoot)
    ensures IsDirectory(MadeDir(k, d, name), d) && OpenAt(MadeDir(k, d, name), d, name) == Held(k.next)
  {
    assert SoundAt(k, d);
    var k' := MadeDir(k, d, name);
    forall n | n in k.where[d] + [name] ensures IsName(n) { }
    forall e | IsDirectory(k', e) ensures SoundAt(k', e) {
      if e != k.next {
        assert SoundAt(k, e);
      }
    }
  }

  lemma MadeKeepsChain(k: Kernel, here: Path, trail: seq<Ino>, d: Ino, name: Name)
    requires Chain(k, here, trail) && IsDirectory(k, d) && k.next !in k.inodes && name !in k.inodes[d].entries
    ensures Chain(MadeDir(k, d, name), here, trail)
  {
  }

  lemma InPlaceAtMissing(k: Kernel, realRoot: Path, o: Options, here: Path, trail: seq<Ino>, queue: seq<Name>, links: nat)
    requires Sound(k, realRoot) && Chain(k, here, trail) && |queue| > 1 && IsName(queue[0]) && o.create
    requires OpenAt(k, trail[|here|], queue[0]) == NoEntry && queue[0] !in k.inodes[trail[|here|]].entries
    ensures InPlace(k, realRoot, o, here, trail, queue, links)
         == InPlace(MadeDir(k, trail[|here|], queue[0]), realRoot, o, here, trail, queue, links)
  {
    hide AfterLink, Sound;
    MadeIsSound(k, realRoot, trail[|here|], queue[0]);
    var k' := MadeDir(k, trail[|here|], queue[0]);
    assert IsDirectory(k', k.next) && !LinkAt(k', trail[|here|], queue[0]);
  }

  /** One call, wherever the walk stands. */
  lemma OneCall(k: Kernel, realRoot: Path, o: Options, w: Walk, here: Path, trail: seq<Ino>) returns (here': Path, trail': seq<Ino>)
    requires Standing(k, realRoot, o, w, here, trail)
    ensures Agrees(k, realRoot, o, w, Goal(k, realRoot, o, w, here, trail), here', trail')
  {
    hide Agrees, Goal;
    here', trail' := here, trail;
    match w.phase
    case FromRoot =>
      FromTheRoot(k, realRoot, o, w, here, trail);
      here', trail' := [], [k.root];
    case Component =>
      if w.at < |w.queue| - 1 {
        here', trail' := OnTheWay(k, realRoot, o, w, here, trail);
      } else {
        AtTheEnd(k, realRoot, o, w, here, trail);
      }
    case Make => AfterMaking(k, realRoot, o, w, here, trail);
    case ReadMiddle => AtReadlink(k, realRoot, o, w, here, trail);
    case ReadLast => AtReadlink(k, realRoot, o, w, here, trail);
  }

  lemma AtReadlink(k: Kernel, realRoot: Path, o: Options, w: Walk, here: Path, trail: seq<Ino>)
    requires Standing(k, realRoot, o, w, here, trail) && (w.phase == ReadMiddle || w.phase == ReadLast)
    ensures Agrees(k, realRoot, o, w, Goal(k, realRoot, o, w, here, trail), here, trail)
  {
    hide Agrees, Goal;
    var name := w.queue[w.at];
    if name == [] {
      AtTheDescriptor(k, realRoot, o, w, here, trail);
    } else if LinkAt(k, w.dir, name) {
      assert SoundAt(k, w.dir);
      AtALink(k, realRoot, o, w, here, trail, k.inodes[k.inodes[w.dir].entries[name]].target);
    } else {
      AtSomethingElse(k, realRoot, o, w, here, trail);
    }
  }

  lemma AtSomethingElse(k: Kernel, realRoot: Path, o: Options, w: Walk, here: Path, trail: seq<Ino>)
    requires Standing(k, realRoot, o, w, here, trail) && w.phase == ReadMiddle
    requires w.queue[w.at] != [] && !LinkAt(k, w.dir, w.queue[w.at])
    ensures Agrees(k, realRoot, o, w, Goal(k, realRoot, o, w, here, trail), here, trail)
  {
    hide AfterLink;
    assert w.queue[w.at..][0] == w.queue[w.at] && w.queue[w.at..][1..] == w.queue[w.at + 1..];
  }

  function Answered(t: Turn): Answer
    requires !t.On?
  {
    match t
    case Found(dir, name, logical) => At(dir, name, logical)
    case Refused(why) => No(why)
  }

  /** The whole walk over a tree that is only its own to change. It ends, and answers what going on in place answers, having made
      the same directories. */
  method Locate(k0: Kernel, realRoot: Path, requested: seq<byte>, o: Options) returns (t: Turn, k: Kernel)
    requires Sound(k0, realRoot)
    ensures !t.On?
    ensures PartsOf(requested).Err? ==> t == Refused(PartsOf(requested).error) && k == k0
    ensures PartsOf(requested).Ok? ==> (Answered(t), k) == InPlace(k0, realRoot, o, [], [k0.root], PartsOf(requested).value, 0)
  {
    hide InPlace, Standing, Agrees, Goal, PartsOf, Step;
    k := k0;
    var parts := PartsOf(requested);
    if parts.Err? { return Refused(parts.error), k; }
    var w := Begin(parts.value, 0);
    ghost var here, trail := [], [k0.root];
    ghost var goal := InPlace(k0, realRoot, o, here, trail, parts.value, 0);
    FirstStand(k0, realRoot, o, requested);
    while true
      invariant Standing(k, realRoot, o, w, here, trail)
      invariant Goal(k, realRoot, o, w, here, trail) == goal
      decreases MAX_LINKS + 1 - w.links, if w.phase == FromRoot then 1 else 0, |w.queue| - w.at, Rank(k, w)
    {
      ghost var here', trail' := OneCall(k, realRoot, o, w, here, trail);
      t := Step(k, realRoot, o, w);
      AgreesMeans(k, realRoot, o, w, goal, here', trail');
      if !t.On? { return; }
      ghost var before := w;
      StandingBounds(k, realRoot, o, w, here, trail);
      k := AfterCall(k, w);
      w := t.w;
      here, trail := here', trail';
      StandingBounds(k, realRoot, o, w, here, trail);
    }
  }

  lemma FirstStand(k: Kernel, realRoot: Path, o: Options, requested: seq<byte>)
    requires Sound(k, realRoot) && PartsOf(requested).Ok?
    ensures Standing(k, realRoot, o, Begin(PartsOf(requested).value, 0), [], [k.root])
    ensures Goal(k, realRoot, o, Begin(PartsOf(requested).value, 0), [], [k.root])
         == InPlace(k, realRoot, o, [], [k.root], PartsOf(requested).value, 0)
  {
    hide PartsOf, InPlace;
    RequestsAreNames(requested);
    RequestsAreDotted(requested);
    RequestsAreNulFree(requested);
    var queue := PartsOf(requested).value;
    assert queue != [] ==> queue[|queue| - 1] in queue;
  }

  lemma AgreesMeans(k: Kernel, realRoot: Path, o: Options, w: Walk, goal: (Answer, Kernel), here: Path, trail: seq<Ino>)
    requires Agrees(k, realRoot, o, w, goal, here, trail)
    ensures match Step(k, realRoot, o, w)
            case On(next) =>
              && Standing(AfterCall(k, w), realRoot, o, next, here, trail)
              && Goal(AfterCall(k, w), realRoot, o, next, here, trail) == goal
              && Nearer(k, w, AfterCall(k, w), next)
            case Found(dir, name, logical) => goal == (At(dir, name, logical), k)
            case Refused(why) => goal == (No(why), k)
  {
    hide Standing, Step, Goal, Nearer;
  }

  lemma StandingBounds(k: Kernel, realRoot: Path, o: Options, w: Walk, here: Path, trail: seq<Ino>)
    requires Standing(k, realRoot, o, w, here, trail)
    ensures w.links <= MAX_LINKS && (w.phase != FromRoot ==> w.at <= |w.queue|)
  {
  }
}
