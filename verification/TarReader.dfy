/** Unpacking an archive from a stream cut anywhere: one turn of the reader's loop as a function of its state,
    the loop itself over chunks, and that the cuts do not matter. */
module TarReader {
  import opened Bytes
  import opened TarFormat
  import opened Pax
  import opened ArchivePath

  /** What a directory holds, by path below it. */
  datatype Node = Dir | File(bytes: seq<byte>)
  type Tree = map<Path, Node>

  datatype Failure =
    | MetadataTooLarge
    | BadMetadata
    | BadName(why: PathError)
    | NotADirectory
    | IsADirectory
    | EndedPartWay
    | NoEndMarker

  /** The payload being read: a file's bytes, or a metadata entry's. */
  datatype Payload =
    | Body(dest: Path, remaining: int, padding: nat)
    | Metadata(kind: byte, collected: seq<byte>, remaining: int, padding: nat)

  datatype Reader = Reader(
    pending: seq<byte>,
    current: Option<Payload>,
    longName: Option<Name>,
    ended: bool,
    tree: Tree,
    files: nat)

  /** One turn of the loop: it goes on, waits for more bytes, or throws. */
  datatype Outcome = More(reader: Reader) | Wait(reader: Reader) | Fail(why: Failure)

  const START := Reader([], None, None, false, map[], 0)

  /* ── The disk ────────────────────────────────────────────────────── */

  /** mkdir with recursive: every directory down to `p`, unless a file is in the way. */
  function MakeDirs(tree: Tree, p: Path): Result<Tree, Failure>
    decreases |p|
  {
    if p == [] then Ok(tree)
    else
      match MakeDirs(tree, p[..|p| - 1])
      case Err(e) => Err(e)
      case Ok(t) => if p in t && t[p].File? then Err(NotADirectory) else Ok(t[p := Dir])
  }

  /** Opening a file to write: emptied when it is there, refused when it is a directory. */
  function OpenFile(tree: Tree, p: Path): Result<Tree, Failure> {
    if p == [] || (p in tree && tree[p].Dir?) then Err(IsADirectory) else Ok(tree[p := File([])])
  }

  function Appended(tree: Tree, p: Path, more: seq<byte>): Tree {
    tree[p := File((if p in tree && tree[p].File? then tree[p].bytes else []) + more)]
  }

  /* ── One turn ────────────────────────────────────────────────────── */

  /** As much of the payload as is here. */
  function Take(r: Reader): (t: Reader)
    requires r.current.Some? && r.current.value.remaining > 0
    ensures t.current.Some? && t.ended == r.ended
    ensures |t.pending| == |r.pending| - Min(r.current.value.remaining, |r.pending|)
  {
    var payload := r.current.value;
    var take := Min(payload.remaining, |r.pending|);
    var bytes := r.pending[..take];
    match payload
    case Body(dest, remaining, padding) =>
      r.(pending := r.pending[take..], tree := Appended(r.tree, dest, bytes),
         current := Some(Body(dest, remaining - take, padding)))
    case Metadata(kind, collected, remaining, padding) =>
      r.(pending := r.pending[take..],
         current := Some(Metadata(kind, collected + bytes, remaining - take, padding)))
  }

  /** The end of a payload: its padding is skipped and it is closed. */
  function Finish(r: Reader): Outcome
    requires r.current.Some?
  {
    var payload := r.current.value;
    if |r.pending| < payload.padding then Wait(r)
    else
      var next := r.(pending := r.pending[payload.padding..], current := None);
      match payload
      case Body(_, _, _) => More(next.(files := r.files + 1))
      case Metadata(kind, collected, _, _) =>
        match PathFromMetadata(kind, collected)
        case Err(_) => Fail(BadMetadata)
        case Ok(path) => More(next.(longName := if path.Some? then path else r.longName))
  }

  /** An entry whose name, size and type are known. */
  function Admit(base: Path, r: Reader, name: Name, size: int, kind: byte): (o: Outcome)
    ensures !o.Wait?
  {
    match SafeJoin(base, name)
    case Err(e) => Fail(BadName(e))
    case Ok(dest) =>
      if kind == TYPE_DIRECTORY then
        match MakeDirs(r.tree, dest)
        case Err(e) => Fail(e)
        case Ok(tree) => More(r.(tree := tree))
      else
        match MakeDirs(r.tree, if dest == [] then [] else dest[..|dest| - 1])
        case Err(e) => Fail(e)
        case Ok(parents) =>
          match OpenFile(parents, dest)
          case Err(e) => Fail(e)
          case Ok(tree) =>
            if size == 0 then More(r.(tree := tree, files := r.files + 1))
            else More(r.(tree := tree, current := Some(Body(dest, size, PaddingOf(size)))))
  }

  predicate IsMetadata(kind: byte) { kind == TYPE_PAX || kind == TYPE_GLOBAL || kind == TYPE_LONG_NAME }

  /** A header's own name: the field, after the prefix a USTAR header may hold. */
  function HeaderName(block: seq<byte>): Name
    requires |block| == BLOCK
  {
    if IsUstar(block) && PrefixOf(block) != [] then PrefixOf(block) + [SLASH] + NameOf(block) else NameOf(block)
  }

  /** A header block, taken off the front of what is pending. */
  function ReadHeader(base: Path, r: Reader, block: seq<byte>): (o: Outcome)
    requires |block| == BLOCK && r.current.None?
    ensures !o.Wait?
  {
    if block[0] == NUL then More(r.(ended := true))
    else
      var size, kind := SizeOf(block), KindOf(block);
      if IsMetadata(kind) then
        if size > MAX_METADATA_BYTES then Fail(MetadataTooLarge)
        else More(r.(current := Some(Metadata(kind, [], size, PaddingOf(size)))))
      else if r.longName.Some? then Admit(base, r.(longName := None), r.longName.value, size, kind)
      else Admit(base, r, HeaderName(block), size, kind)
  }

  function Step(base: Path, r: Reader): Outcome
    requires !r.ended
  {
    if r.current.Some? then
      if r.current.value.remaining > 0 then
        if r.pending == [] then Wait(r)
        else
          var t := Take(r);
          if t.current.value.remaining > 0 then Wait(t) else Finish(t)
      else Finish(r)
    else if |r.pending| < BLOCK then Wait(r)
    else ReadHeader(base, r.(pending := r.pending[BLOCK..]), r.pending[..BLOCK])
  }

  function Busy(r: Reader): nat { if r.current.Some? then 1 else 0 }

  lemma StepShrinks(base: Path, r: Reader)
    requires !r.ended && Step(base, r).More?
    ensures var next := Step(base, r).reader;
      |next.pending| < |r.pending| || (|next.pending| == |r.pending| && Busy(next) < Busy(r))
  {
    hide SafeJoin, MakeDirs, OpenFile, PathFromMetadata, SizeOf, NameOf, PrefixOf, IsUstar;
  }

  /** The loop over what is pending, until it waits, ends or throws. */
  function Drain(base: Path, r: Reader): Result<Reader, Failure>
    decreases |r.pending|, Busy(r)
  {
    if r.ended then Ok(r)
    else
      match Step(base, r)
      case Fail(e) => Err(e)
      case Wait(next) => Ok(next)
      case More(next) => (StepShrinks(base, r); Drain(base, next))
  }

  function Plus(r: Reader, more: seq<byte>): Reader { r.(pending := r.pending + more) }

  /** One chunk of the stream; what comes after the end is not looked at. */
  function Feed(base: Path, r: Reader, chunk: seq<byte>): Result<Reader, Failure> {
    if r.ended then Ok(r) else Drain(base, Plus(r, chunk))
  }

  function FeedAll(base: Path, r: Reader, chunks: seq<seq<byte>>): Result<Reader, Failure>
    decreases |chunks|
  {
    if chunks == [] then Ok(r)
    else
      match Feed(base, r, chunks[0])
      case Err(e) => Err(e)
      case Ok(next) => FeedAll(base, next, chunks[1..])
  }

  datatype Unpacked = Unpacked(tree: Tree, files: nat)

  /** The verdict once the stream is over. */
  function Verdict(r: Reader): Result<Unpacked, Failure> {
    if r.current.Some? then Err(EndedPartWay)
    else if !r.ended then Err(NoEndMarker)
    else Ok(Unpacked(r.tree, r.files))
  }

  function Extract(base: Path, chunks: seq<seq<byte>>): Result<Unpacked, Failure> {
    match FeedAll(base, START, chunks)
    case Err(e) => Err(e)
    case Ok(r) => Verdict(r)
  }

  /* ── The loop as it runs ─────────────────────────────────────────── */

  class Unpacker {
    const base: Path
    var pending: seq<byte>
    var current: Option<Payload>
    var longName: Option<Name>
    var ended: bool
    var tree: Tree
    var files: nat

    function State(): Reader
      reads this
    {
      Reader(pending, current, longName, ended, tree, files)
    }

    constructor (base: Path)
      ensures this.base == base && State() == START
    {
      this.base := base;
      pending, current, longName, ended, tree, files := [], None, None, false, map[], 0;
    }

    /** One turn of the loop. */
    method Turn() returns (turn: Turning)
      requires !ended
      modifies this
      ensures match Step(base, old(State()))
              case Fail(e) => turn == Throws(e)
              case Wait(r) => turn == Breaks && State() == r
              case More(r) => turn == Continues && State() == r
    {
      if current.Some? {
        turn := PayloadTurn();
      } else {
        turn := HeaderTurn();
      }
    }

    method PayloadTurn() returns (turn: Turning)
      requires !ended && current.Some?
      modifies this
      ensures match Step(base, old(State()))
              case Fail(e) => turn == Throws(e)
              case Wait(r) => turn == Breaks && State() == r
              case More(r) => turn == Continues && State() == r
    {
      hide PathFromMetadata, Appended;
      if current.value.remaining > 0 {
        if |pending| == 0 { return Breaks; }
        var take := Min(current.value.remaining, |pending|);
        if current.value.Body? {
          tree := Appended(tree, current.value.dest, pending[..take]);
          current := Some(Body(current.value.dest, current.value.remaining - take, current.value.padding));
        } else {
          current := Some(Metadata(current.value.kind, current.value.collected + pending[..take],
                                   current.value.remaining - take, current.value.padding));
        }
        pending := pending[take..];
        assert State() == Take(old(State()));
        if current.value.remaining > 0 { return Breaks; }
      }
      // Skip what fills up the last block.
      if |pending| < current.value.padding { return Breaks; }
      pending := pending[current.value.padding..];
      if current.value.Body? {
        files := files + 1;
      } else {
        var path := NameFromMetadata(current.value.kind, current.value.collected);
        if path.Err? { return Throws(BadMetadata); }
        if path.value.Some? { longName := path.value; }
      }
      current := None;
      return Continues;
    }

    method HeaderTurn() returns (turn: Turning)
      requires !ended && current.None?
      modifies this
      ensures match Step(base, old(State()))
              case Fail(e) => turn == Throws(e)
              case Wait(r) => turn == Breaks && State() == r
              case More(r) => turn == Continues && State() == r
    {
      hide SafeJoin, MakeDirs, OpenFile, SizeOf, NameOf, PrefixOf, IsUstar;
      if |pending| < BLOCK { return Breaks; }
      var block := pending[..BLOCK];
      pending := pending[BLOCK..];
      if block[0] == NUL {
        ended := true;
        return Continues;
      }
      var name, size, kind := NameOf(block), SizeOf(block), KindOf(block);
      if kind == TYPE_PAX || kind == TYPE_GLOBAL || kind == TYPE_LONG_NAME {
        if size > MAX_METADATA_BYTES { return Throws(MetadataTooLarge); }
        current := Some(Metadata(kind, [], size, PaddingOf(size)));
        return Continues;
      }
      if longName.Some? {
        name := longName.value;
        longName := None;
      } else if IsUstar(block) {
        var prefix := PrefixOf(block);
        if prefix != [] { name := prefix + [SLASH] + name; }
      }
      turn := EntryTurn(name, size, kind);
    }

    method EntryTurn(name: Name, size: int, kind: byte) returns (turn: Turning)
      modifies this
      ensures match Admit(base, old(State()), name, size, kind)
              case Fail(e) => turn == Throws(e)
              case Wait(r) => turn == Breaks && State() == r
              case More(r) => turn == Continues && State() == r
    {
      hide SafeJoin, MakeDirs, OpenFile;
      var joined := SafeJoin(base, name);
      if joined.Err? { return Throws(BadName(joined.error)); }
      var dest := joined.value;
      var made := MakeDirs(tree, if kind == TYPE_DIRECTORY then dest else if dest == [] then [] else dest[..|dest| - 1]);
      if made.Err? { return Throws(made.error); }
      tree := made.value;
      if kind == TYPE_DIRECTORY { return Continues; }
      var sink := OpenFile(tree, dest);
      if sink.Err? { return Throws(sink.error); }
      tree := sink.value;
      if size == 0 {
        files := files + 1;
      } else {
        current := Some(Body(dest, size, PaddingOf(size)));
      }
      return Continues;
    }

    /** One chunk of the stream. */
    method Consume(chunk: seq<byte>) returns (thrown: Option<Failure>)
      modifies this
      ensures match Feed(base, old(State()), chunk)
              case Err(e) => thrown == Some(e)
              case Ok(r) => thrown == None && State() == r
    {
      hide Step;
      if ended { return None; }
      pending := pending + chunk;
      ghost var start := State();
      while !ended
        invariant Drain(base, State()) == Drain(base, start)
        decreases |pending|, Busy(State()), !ended
      {
        ghost var before := State();
        StepShrinksIfMore(base, before);
        var turn := Turn();
        match turn
        case Throws(e) => return Some(e);
        case Breaks => return None;
        case Continues =>
      }
      return None;
    }

    /** The whole stream, chunk by chunk, and the verdict at its end. */
    method ExtractInto(chunks: seq<seq<byte>>) returns (r: Result<Unpacked, Failure>)
      requires State() == START
      modifies this
      ensures r == Extract(base, chunks)
    {
      hide Feed;
      var i := 0;
      while i < |chunks|
        invariant 0 <= i <= |chunks|
        invariant FeedAll(base, State(), chunks[i..]) == FeedAll(base, START, chunks)
      {
        var thrown := Consume(chunks[i]);
        if thrown.Some? { return Err(thrown.value); }
        assert chunks[i..][1..] == chunks[i + 1..];
        i := i + 1;
      }
      if current.Some? { return Err(EndedPartWay); }
      if !ended { return Err(NoEndMarker); }
      return Ok(Unpacked(tree, files));
    }
  }

  datatype Turning = Continues | Breaks | Throws(why: Failure)

  lemma StepShrinksIfMore(base: Path, r: Reader)
    requires !r.ended
    ensures Step(base, r).More? ==>
      var next := Step(base, r).reader;
      |next.pending| < |r.pending| || (|next.pending| == |r.pending| && Busy(next) < Busy(r))
  {
    if Step(base, r).More? {
      StepShrinks(base, r);
    }
  }

  /* ── The cuts do not matter ──────────────────────────────────────── */

  /** A turn that does not wait does the same with more bytes behind it. */
  lemma StepWithMore(base: Path, r: Reader, more: seq<byte>)
    requires !r.ended && !Step(base, r).Wait?
    ensures match Step(base, r)
            case Fail(e) => Step(base, Plus(r, more)) == Fail(e)
            case More(next) => Step(base, Plus(r, more)) == More(Plus(next, more))
  {
    if r.current.Some? {
      if r.current.value.remaining > 0 {
        TakeWithMore(r, more);
        FinishWithMore(Take(r), more);
      } else {
        FinishWithMore(r, more);
      }
    } else {
      HeaderWithMore(base, r, more);
    }
  }

  lemma TakeWithMore(r: Reader, more: seq<byte>)
    requires r.current.Some? && 0 < r.current.value.remaining <= |r.pending|
    ensures Take(Plus(r, more)) == Plus(Take(r), more)
  {
    var n := r.current.value.remaining;
    assert (r.pending + more)[..n] == r.pending[..n];
    assert (r.pending + more)[n..] == r.pending[n..] + more;
  }

  lemma FinishWithMore(r: Reader, more: seq<byte>)
    requires r.current.Some? && |r.pending| >= r.current.value.padding
    ensures match Finish(r)
            case Fail(e) => Finish(Plus(r, more)) == Fail(e)
            case Wait(_) => false
            case More(next) => Finish(Plus(r, more)) == More(Plus(next, more))
  {
    hide PathFromMetadata;
    var n := r.current.value.padding;
    assert (r.pending + more)[n..] == r.pending[n..] + more;
  }

  lemma HeaderWithMore(base: Path, r: Reader, more: seq<byte>)
    requires !r.ended && r.current.None? && |r.pending| >= BLOCK
    ensures match Step(base, r)
            case Fail(e) => Step(base, Plus(r, more)) == Fail(e)
            case Wait(_) => false
            case More(next) => Step(base, Plus(r, more)) == More(Plus(next, more))
  {
    hide SafeJoin, MakeDirs, OpenFile, SizeOf, HeaderName, KindOf, Admit;
    assert (r.pending + more)[..BLOCK] == r.pending[..BLOCK];
    assert (r.pending + more)[BLOCK..] == r.pending[BLOCK..] + more;
    var block, rest := r.pending[..BLOCK], r.(pending := r.pending[BLOCK..]);
    assert Plus(r, more).(pending := (r.pending + more)[BLOCK..]) == Plus(rest, more);
    var size, kind := SizeOf(block), KindOf(block);
    AdmitWithMore(base, rest, HeaderName(block), size, kind, more);
    if r.longName.Some? {
      AdmitWithMore(base, rest.(longName := None), r.longName.value, size, kind, more);
    }
  }

  lemma AdmitWithMore(base: Path, r: Reader, name: Name, size: int, kind: byte, more: seq<byte>)
    ensures match Admit(base, r, name, size, kind)
            case Fail(e) => Admit(base, Plus(r, more), name, size, kind) == Fail(e)
            case Wait(_) => false
            case More(next) => Admit(base, Plus(r, more), name, size, kind) == More(Plus(next, more))
  {
    hide SafeJoin, MakeDirs, OpenFile;
  }

  /** A turn that waits has lost nothing: with more bytes, it goes on as the untouched state would. */
  lemma WaitWithMore(base: Path, r: Reader, more: seq<byte>)
    requires !r.ended && Step(base, r).Wait? && more != []
    ensures var next := Step(base, r).reader;
      !next.ended && Step(base, Plus(next, more)) == Step(base, Plus(r, more))
  {
    hide PathFromMetadata, ReadHeader, Take;
    if r.current.Some? && r.current.value.remaining > 0 && r.pending != [] {
      var t := Take(r);
      TakeKeeps(r);
      TakeKeeps(Plus(r, more));
      if t.current.value.remaining > 0 {
        TakeKeeps(Plus(t, more));
        TakeInTwo(r, more);
      } else {
        TakeWithMore(r, more);
      }
    }
  }

  lemma WaitIsStable(base: Path, r: Reader)
    requires !r.ended && Step(base, r).Wait?
    ensures var next := Step(base, r).reader; !next.ended && Step(base, next) == Wait(next)
  {
    hide PathFromMetadata, ReadHeader, Appended;
  }

  lemma TakeKeeps(r: Reader)
    requires r.current.Some? && r.current.value.remaining > 0
    ensures var t := Take(r);
      && t.current.Some?
      && t.current.value.remaining == r.current.value.remaining - Min(r.current.value.remaining, |r.pending|)
      && t.current.value.padding == r.current.value.padding
      && t.ended == r.ended
  {
  }

  lemma AppendedTwice(tree: Tree, p: Path, a: seq<byte>, b: seq<byte>)
    ensures Appended(Appended(tree, p, a), p, b) == Appended(tree, p, a + b)
  {
    var held := if p in tree && tree[p].File? then tree[p].bytes else [];
    assert held + a + b == held + (a + b);
  }

  lemma TakeInTwo(r: Reader, more: seq<byte>)
    requires r.current.Some? && r.current.value.remaining > |r.pending|
    ensures Take(Plus(Take(r), more)) == Take(Plus(r, more))
  {
    hide Appended;
    var remaining, p := r.current.value.remaining, r.pending;
    var n := Min(remaining - |p|, |more|);
    assert p[..|p|] == p && p[|p|..] == [];
    assert ([] + more)[..n] == more[..n] && ([] + more)[n..] == more[n..];
    assert (p + more)[..|p| + n] == p + more[..n];
    assert (p + more)[|p| + n..] == more[n..];
    if r.current.value.Body? {
      AppendedTwice(r.tree, r.current.value.dest, p, more[..n]);
    } else {
      assert r.current.value.collected + p + more[..n] == r.current.value.collected + (p + more[..n]);
    }
  }

  lemma {:induction false} DrainWithMore(base: Path, r: Reader, more: seq<byte>)
    ensures Drain(base, Plus(r, more)) ==
      match Drain(base, r)
      case Err(e) => Err(e)
      case Ok(next) => if next.ended then Ok(Plus(next, more)) else Drain(base, Plus(next, more))
    decreases |r.pending|, Busy(r)
  {
    hide Step;
    if !r.ended {
      match Step(base, r)
      case Fail(e) => StepWithMore(base, r, more);
      case More(next) =>
        StepWithMore(base, r, more);
        StepShrinks(base, r);
        DrainWithMore(base, next, more);
      case Wait(next) =>
        WaitIsStable(base, r);
        if more == [] {
          assert Plus(r, more) == r && Plus(next, more) == next;
        } else {
          WaitWithMore(base, r, more);
        }
    } else {
      assert Plus(r, more).ended;
    }
  }

  /** What is pending at the end is of no matter to the verdict. */
  predicate SameBut(a: Reader, b: Reader) { a.(pending := []) == b.(pending := []) }

  /** However a stream is cut, feeding it ends as feeding it whole does. */
  lemma {:induction false} ChunksDoNotMatter(base: Path, r: Reader, chunks: seq<seq<byte>>)
    requires r.ended || Drain(base, r) == Ok(r)
    ensures match FeedAll(base, r, chunks)
            case Err(e) => Feed(base, r, Concat(chunks)) == Err(e)
            case Ok(a) => Feed(base, r, Concat(chunks)).Ok? && SameBut(a, Feed(base, r, Concat(chunks)).value)
    decreases |chunks|
  {
    hide Drain;
    if chunks == [] {
      assert Plus(r, []) == r;
    } else if r.ended {
      ChunksDoNotMatter(base, r, chunks[1..]);
    } else {
      var first, rest := chunks[0], Concat(chunks[1..]);
      assert Plus(Plus(r, first), rest) == Plus(r, Concat(chunks)) by {
        assert r.pending + first + rest == r.pending + (first + rest);
      }
      DrainWithMore(base, Plus(r, first), rest);
      match Drain(base, Plus(r, first))
      case Err(e) =>
      case Ok(next) =>
        DrainIsStable(base, Plus(r, first));
        ChunksDoNotMatter(base, next, chunks[1..]);
    }
  }

  lemma {:induction false} DrainIsStable(base: Path, r: Reader)
    ensures match Drain(base, r)
            case Err(_) => true
            case Ok(next) => next.ended || Drain(base, next) == Ok(next)
    decreases |r.pending|, Busy(r)
  {
    hide Step;
    if !r.ended {
      match Step(base, r)
      case Fail(_) =>
      case Wait(_) => WaitIsStable(base, r);
      case More(next) =>
        StepShrinks(base, r);
        DrainIsStable(base, next);
    }
  }

  /** The result of an extraction depends on the bytes of the stream and on nothing else. */
  lemma {:induction false} CutsDoNotMatter(base: Path, chunks: seq<seq<byte>>)
    ensures Extract(base, chunks) == Extract(base, [Concat(chunks)])
  {
    hide Feed, Drain;
    StartIsStable(base);
    ChunksDoNotMatter(base, START, chunks);
    var whole := [Concat(chunks)];
    assert whole[1..] == [];
    match Feed(base, START, Concat(chunks))
    case Err(_) =>
    case Ok(b) => assert FeedAll(base, b, whole[1..]) == Ok(b);
  }

  lemma StartIsStable(base: Path)
    ensures Drain(base, START) == Ok(START)
  {
    assert Step(base, START) == Wait(START);
  }
}
