/** Walking to a path below a server's directory, one held directory at a time, while somebody else may rewrite the tree
    between any two calls. */
module Beneath {
  import opened Bytes
  import opened ArchivePath

  const MAX_LINKS: nat := 40

  datatype Problem =
    | NulInRequest
    | RequestEscapes
    | LinkEscapes
    | NotADirectoryThere
    | TooManyLinks
    | NoSuchDirectory
    | Gone

  /* ── Paths as text ───────────────────────────────────────────────── */

  /** path.posix.normalize on a relative path, one part at a time: ".." goes up, and above the start it stays. */
  function Push(stack: seq<Name>, part: Name): seq<Name> {
    if part == [] || part == [DOT] then stack
    else if part == PARENT && stack != [] && stack[|stack| - 1] != PARENT then stack[..|stack| - 1]
    else stack + [part]
  }

  function Squash(stack: seq<Name>, parts: seq<Name>): seq<Name>
    decreases |parts|
  {
    if parts == [] then stack else Squash(Push(stack, parts[0]), parts[1..])
  }

  predicate EndsWithSlash(text: seq<byte>) { text != [] && text[|text| - 1] == SLASH }

  /** normalize(text).split("/") for a relative text; a slash at the end stays, and leaves an empty last part. */
  function NormalParts(text: seq<byte>): seq<Name> {
    var stack := Squash([], Split(text, SLASH));
    (if stack == [] then [[DOT]] else stack) + (if EndsWithSlash(text) then [[]] else [])
  }

  predicate GoesUp(parts: seq<Name>) { parts != [] && parts[0] == PARENT }

  function Unbackslashed(text: seq<byte>): (s: seq<byte>)
    ensures |s| == |text|
  {
    seq(|text|, i requires 0 <= i < |text| => if text[i] == BACKSLASH then SLASH else text[i])
  }

  function StripLeading(text: seq<byte>): seq<byte> {
    if text != [] && text[0] == SLASH then StripLeading(text[1..]) else text
  }

  function NonEmpty(parts: seq<Name>): seq<Name> {
    if parts == [] then [] else (if parts[0] == [] then [] else [parts[0]]) + NonEmpty(parts[1..])
  }

  /** The components of a request. */
  function PartsOf(requested: seq<byte>): Result<seq<Name>, Problem> {
    if NUL in requested then Err(NulInRequest)
    else
      var parts := NormalParts(StripLeading(Unbackslashed(requested)));
      if GoesUp(parts) then Err(RequestEscapes)
      else if parts == [[DOT]] then Ok([])
      else Ok(NonEmpty(parts))
  }

  /** Where a link leads, as components below the root; a target that leads out is refused. */
  function AfterLink(inside: seq<Name>, target: seq<byte>, realRoot: Path): Result<seq<Name>, Problem> {
    if target != [] && target[0] == SLASH then
      var landed := Resolve([], Split(target, SLASH));
      if realRoot <= landed then Ok(landed[|realRoot|..]) else Err(LinkEscapes)
    else
      var parts := NormalParts(Join(inside + [target], SLASH));
      if GoesUp(parts) then Err(LinkEscapes)
      else if parts == [[DOT]] then Ok([])
      else Ok(parts)
  }

  /* ── The kernel ──────────────────────────────────────────────────── */

  type Ino = nat

  datatype Inode = Directory(entries: map<Name, Ino>) | Symlink(target: seq<byte>) | Other

  /** A moment of the file system. `up` is what ".." is in each directory, `far` is where a name of several components would lead,
      and `where` the path the kernel gives for a held directory. */
  datatype Kernel = Kernel(inodes: map<Ino, Inode>, root: Ino, up: map<Ino, Ino>, far: Ino, where: map<Ino, Path>, next: Ino)

  predicate IsDirectory(k: Kernel, d: Ino) { d in k.inodes && k.inodes[d].Directory? }

  datatype Opened = Held(dir: Ino) | NotDirectory | NoEntry

  /** open(through(dir, name), O_DIRECTORY | O_NOFOLLOW). With no name it is the descriptor's own link that is not followed. */
  function OpenAt(k: Kernel, dir: Ino, name: Name): Opened {
    if !IsDirectory(k, dir) then NoEntry
    else if name == [] then NotDirectory
    else if name == [DOT] then Held(dir)
    else if name == PARENT then (if dir in k.up then Held(k.up[dir]) else NoEntry)
    else if SLASH in name then Held(k.far)
    else if name !in k.inodes[dir].entries then NoEntry
    else if IsDirectory(k, k.inodes[dir].entries[name]) then Held(k.inodes[dir].entries[name])
    else NotDirectory
  }

  /** Whether lstat(through(dir, name)) finds a link. */
  predicate LinkAt(k: Kernel, dir: Ino, name: Name) {
    name == [] || (IsDirectory(k, dir) && name in k.inodes[dir].entries
                   && k.inodes[dir].entries[name] in k.inodes && k.inodes[k.inodes[dir].entries[name]].Symlink?)
  }

  function PathText(p: Path): seq<byte> { [SLASH] + Join(p, SLASH) }

  /** readlink(through(dir, name)). */
  function ReadlinkAt(k: Kernel, dir: Ino, name: Name): Option<seq<byte>> {
    if name == [] then (if dir in k.where then Some(PathText(k.where[dir])) else None)
    else if LinkAt(k, dir, name) then Some(k.inodes[k.inodes[dir].entries[name]].target)
    else None
  }

  /* ── The walk, one call to the kernel at a time ──────────────────── */

  datatype Options = Options(create: bool, followLast: bool)

  /** Which call comes next: the root's open, a component's, the readlink after one that was not a directory, the mkdir of one
      that was missing, or the readlink at the end of the path. */
  datatype Phase = FromRoot | Component | ReadMiddle | Make | ReadLast

  datatype Walk = Walk(queue: seq<Name>, at: nat, dir: Ino, logical: seq<Name>, links: nat, phase: Phase)

  datatype Turn = On(w: Walk) | Found(dir: Ino, name: Name, logical: seq<Name>) | Refused(why: Problem)

  function Begin(queue: seq<Name>, links: nat): Walk { Walk(queue, 0, 0, [], links, FromRoot) }

  /** The walk starts again from the root, along the parts a link led to and what was still to come. */
  function Restart(w: Walk, target: seq<byte>, realRoot: Path): Turn
    requires w.at < |w.queue|
  {
    if w.links + 1 > MAX_LINKS then Refused(TooManyLinks)
    else
      match AfterLink(w.logical, target, realRoot)
      case Err(e) => Refused(e)
      case Ok(parts) => On(Begin(parts + w.queue[w.at + 1..], w.links + 1))
  }

  /** The readlink of a component, and what is refused when it has become something else. */
  function FollowLink(k: Kernel, realRoot: Path, w: Walk, otherwise: Problem): Turn
    requires w.at < |w.queue|
  {
    match ReadlinkAt(k, w.dir, w.queue[w.at])
    case None => Refused(otherwise)
    case Some(target) => Restart(w, target, realRoot)
  }

  function Step(k: Kernel, realRoot: Path, options: Options, w: Walk): Turn {
    match w.phase
    case FromRoot => On(w.(at := 0, dir := k.root, logical := [], phase := Component))
    case Component =>
      if w.at >= |w.queue| then Found(w.dir, [], w.logical)
      else if w.at < |w.queue| - 1 then
        match OpenAt(k, w.dir, w.queue[w.at])
        case Held(next) => On(w.(dir := next, logical := w.logical + [w.queue[w.at]], at := w.at + 1))
        case NotDirectory => On(w.(phase := ReadMiddle))
        case NoEntry => if options.create then On(w.(phase := Make)) else Refused(NoSuchDirectory)
      else if LinkAt(k, w.dir, w.queue[w.at]) && options.followLast then On(w.(phase := ReadLast))
      else Found(w.dir, w.queue[w.at], w.logical)
    case ReadMiddle =>
      if w.at >= |w.queue| then Refused(Gone)
      else FollowLink(k, realRoot, w, NotADirectoryThere)
    case Make => if IsDirectory(k, w.dir) then On(w.(phase := Component)) else Refused(Gone)
    case ReadLast =>
      if w.at >= |w.queue| then Refused(Gone)
      else FollowLink(k, realRoot, w, Gone)
  }

  /* ── Whatever anybody does to the tree meanwhile ─────────────────── */

  /** Somebody confined to the server's directory may have made anything of it; but a directory of it holds no directory of the
      outside, whose inodes are `outside`. */
  ghost predicate Confined(k: Kernel, outside: iset<Ino>, root: Ino) {
    && k.root == root && root !in outside
    && forall d, n :: d !in outside && IsDirectory(k, d) && n in k.inodes[d].entries && IsDirectory(k, k.inodes[d].entries[n])
         ==> k.inodes[d].entries[n] !in outside
  }

  /** A component the walk may put behind a descriptor. */
  predicate OneName(n: Name) { SLASH !in n && n != PARENT }

  predicate OnlyNames(names: seq<Name>) { forall n :: n in names ==> OneName(n) }

  ghost predicate Contained(w: Walk, outside: iset<Ino>) {
    OnlyNames(w.queue) && (w.phase != FromRoot ==> w.dir !in outside)
  }

  /** One call, whatever the tree is at that moment: the directory held afterwards is the server's, and so is the one returned. */
  lemma StepIsContained(k: Kernel, realRoot: Path, options: Options, w: Walk, outside: iset<Ino>, root: Ino)
    requires Confined(k, outside, root) && Contained(w, outside)
    ensures match Step(k, realRoot, options, w)
            case On(next) => Contained(next, outside)
            case Found(dir, name, _) => dir !in outside && OneName(name)
            case Refused(_) => true
  {
    hide AfterLink;
    if w.at < |w.queue| {
      assert w.queue[w.at] in w.queue;
      var target := ReadlinkAt(k, w.dir, w.queue[w.at]);
      if target.Some? {
        LinksLeadToNames(w.logical, target.value, realRoot);
      }
    }
  }

  lemma LinksLeadToNames(inside: seq<Name>, target: seq<byte>, realRoot: Path)
    ensures AfterLink(inside, target, realRoot).Ok? ==> OnlyNames(AfterLink(inside, target, realRoot).value)
  {
    hide Squash, Resolve, Join, Split;
    if target != [] && target[0] == SLASH {
      SplitParts(target, SLASH);
      ResolveIsPlain([], Split(target, SLASH));
    } else {
      NormalPartsArePlain(Join(inside + [target], SLASH));
    }
  }

  lemma {:induction false} ResolveIsPlain(at: Path, parts: seq<Name>)
    requires OnlyNames(at) && forall p :: p in parts ==> SLASH !in p
    ensures OnlyNames(Resolve(at, parts))
    decreases |parts|
  {
    if parts != [] {
      assert parts[0] in parts;
      ResolveIsPlain(Enter(at, parts[0]), parts[1..]);
    }
  }

  /** A squashed path that does not begin with ".." has none. */
  predicate UpsFirst(stack: seq<Name>) {
    && (forall n :: n in stack ==> SLASH !in n)
    && forall i, j :: 0 <= i < j < |stack| && stack[j] == PARENT ==> stack[i] == PARENT
  }

  lemma {:induction false} SquashKeepsUpsFirst(stack: seq<Name>, parts: seq<Name>)
    requires UpsFirst(stack) && forall p :: p in parts ==> SLASH !in p
    ensures UpsFirst(Squash(stack, parts))
    decreases |parts|
  {
    if parts != [] {
      assert parts[0] in parts;
      SquashKeepsUpsFirst(Push(stack, parts[0]), parts[1..]);
    }
  }

  lemma NormalPartsArePlain(text: seq<byte>)
    ensures !GoesUp(NormalParts(text)) ==> OnlyNames(NormalParts(text))
  {
    hide Squash, Split;
    SplitParts(text, SLASH);
    SquashKeepsUpsFirst([], Split(text, SLASH));
    var stack := Squash([], Split(text, SLASH));
    var parts := NormalParts(text);
    if !GoesUp(parts) {
      forall n | n in stack ensures OneName(n) {
        var i :| 0 <= i < |stack| && stack[i] == n;
        assert i > 0 ==> stack[0] != PARENT;
      }
    }
  }

  lemma {:induction false} NonEmptyParts(parts: seq<Name>)
    ensures forall p :: p in NonEmpty(parts) <==> p in parts && p != []
  {
    if parts != [] {
      NonEmptyParts(parts[1..]);
      assert parts == [parts[0]] + parts[1..];
    }
  }

  predicate NoDots(parts: seq<Name>) {
    forall i :: 0 <= i < |parts| ==> parts[i] != [] && parts[i] != [DOT]
  }

  lemma {:induction false} SquashHasNoDot(stack: seq<Name>, parts: seq<Name>)
    requires NoDots(stack)
    ensures NoDots(Squash(stack, parts))
    decreases |parts|
  {
    if parts != [] {
      SquashHasNoDot(Push(stack, parts[0]), parts[1..]);
    }
  }

  lemma {:induction false} NonEmptyOfPlain(parts: seq<Name>)
    requires NoDots(parts)
    ensures NonEmpty(parts) == parts
  {
    if parts != [] {
      NonEmptyOfPlain(parts[1..]);
    }
  }

  lemma {:induction false} NonEmptyAppended(a: seq<Name>, b: seq<Name>)
    ensures NonEmpty(a + b) == NonEmpty(a) + NonEmpty(b)
  {
    if a == [] {
      assert a + b == b;
    } else {
      assert (a + b)[1..] == a[1..] + b;
      NonEmptyAppended(a[1..], b);
    }
  }

  /** A request that is taken is names only. */
  lemma {:induction false} RequestsAreNames(requested: seq<byte>)
    ensures PartsOf(requested).Ok? ==> OnlyNames(PartsOf(requested).value)
    ensures PartsOf(requested).Ok? ==> forall n :: n in PartsOf(requested).value ==> n != []
  {
    hide NormalParts;
    var text := StripLeading(Unbackslashed(requested));
    NormalPartsArePlain(text);
    NonEmptyParts(NormalParts(text));
  }

  /** A run: what each call finds is another moment of the tree. */
  function Run(moments: seq<Kernel>, realRoot: Path, options: Options, w: Walk): Turn
    decreases |moments|
  {
    if moments == [] then On(w)
    else
      match Step(moments[0], realRoot, options, w)
      case On(next) => Run(moments[1..], realRoot, options, next)
      case Found(dir, name, logical) => Found(dir, name, logical)
      case Refused(why) => Refused(why)
  }

  lemma {:induction false} RunIsContained(moments: seq<Kernel>, realRoot: Path, options: Options, w: Walk, outside: iset<Ino>, root: Ino)
    requires forall k :: k in moments ==> Confined(k, outside, root)
    requires Contained(w, outside)
    ensures match Run(moments, realRoot, options, w)
            case On(next) => Contained(next, outside)
            case Found(dir, name, _) => dir !in outside && OneName(name)
            case Refused(_) => true
    decreases |moments|
  {
    hide Step, Confined;
    if moments != [] {
      assert moments[0] in moments;
      StepIsContained(moments[0], realRoot, options, w, outside, root);
      match Step(moments[0], realRoot, options, w)
      case On(next) => RunIsContained(moments[1..], realRoot, options, next, outside, root);
      case _ =>
    }
  }

  /** Every request, every tree, every interference: after any number of calls the walk holds a directory of the server's, has
      only plain names left to open in it, and what it returns is such a directory and such a name. */
  lemma NeverLeavesTheServer(moments: seq<Kernel>, realRoot: Path, options: Options, requested: seq<byte>, outside: iset<Ino>, root: Ino)
    requires forall k :: k in moments ==> Confined(k, outside, root)
    requires PartsOf(requested).Ok?
    ensures match Run(moments, realRoot, options, Begin(PartsOf(requested).value, 0))
            case On(next) => OnlyNames(next.queue) && (next.phase != FromRoot ==> next.dir !in outside)
            case Found(dir, name, _) => dir !in outside && OneName(name)
            case Refused(_) => true
  {
    hide PartsOf, Run;
    RequestsAreNames(requested);
    RunIsContained(moments, realRoot, options, Begin(PartsOf(requested).value, 0), outside, root);
  }

  /** Forty links are followed and no more: a run never has counted more, and the next is refused as one too many. */
  lemma FortyLinks(k: Kernel, realRoot: Path, options: Options, w: Walk)
    requires w.links <= 40
    ensures match Step(k, realRoot, options, w)
            case On(next) => next.links == w.links || (next.links == w.links + 1 <= 40 && next.phase == FromRoot)
            case Found(_, _, _) => true
            case Refused(why) => why == TooManyLinks ==> w.links == 40
    ensures w.at < |w.queue| && (w.phase == ReadMiddle || w.phase == ReadLast) ==>
              match ReadlinkAt(k, w.dir, w.queue[w.at])
              case None => true
              case Some(target) =>
                Step(k, realRoot, options, w) ==
                  if w.links == 40 then Refused(TooManyLinks)
                  else
                    match AfterLink(w.logical, target, realRoot)
                    case Err(e) => Refused(e)
                    case Ok(parts) => On(Walk(parts + w.queue[w.at + 1..], 0, 0, [], w.links + 1, FromRoot))
  {
    hide AfterLink, ReadlinkAt;
    if w.at < |w.queue| {
      match ReadlinkAt(k, w.dir, w.queue[w.at])
      case None =>
      case Some(target) => LinkProblem(w.logical, target, realRoot);
    }
  }

  lemma LinkProblem(inside: seq<Name>, target: seq<byte>, realRoot: Path)
    ensures AfterLink(inside, target, realRoot).Err? ==> AfterLink(inside, target, realRoot).error == LinkEscapes
  {
  }
}
