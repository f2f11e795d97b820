/** What the text of a request and of a link's target means: which are refused, and which names are left, read from the end. */
module BeneathPaths {
  import opened Bytes
  import opened ArchivePath
  import opened Beneath

  /** How many names there are among the parts of a path, and how many "..". */
  function Downs(parts: seq<Name>): nat
    decreases |parts|
  {
    if parts == [] then 0
    else
      var last := parts[|parts| - 1];
      Downs(parts[..|parts| - 1]) + if last == [] || last == [DOT] || last == [DOT, DOT] then 0 else 1
  }

  function Ups(parts: seq<Name>): nat
    decreases |parts|
  {
    if parts == [] then 0 else Ups(parts[..|parts| - 1]) + if parts[|parts| - 1] == [DOT, DOT] then 1 else 0
  }

  /** Somewhere on the way there were more ".." than names: the path was above where it began. */
  predicate Climbs(parts: seq<Name>) { exists k :: 0 <= k <= |parts| && Ups(parts[..k]) > Downs(parts[..k]) }

  lemma ClimbsOneMore(front: seq<Name>, last: Name)
    ensures Climbs(front + [last]) <==> Climbs(front) || Ups(front + [last]) > Downs(front + [last])
  {
    var parts := front + [last];
    assert parts[..|parts|] == parts;
    assert forall k :: 0 <= k <= |front| ==> parts[..k] == front[..k];
    if Climbs(parts) {
      var k :| 0 <= k <= |parts| && Ups(parts[..k]) > Downs(parts[..k]);
      assert k < |parts| ==> parts[..k] == front[..k];
    }
    if Climbs(front) {
      var k :| 0 <= k <= |front| && Ups(front[..k]) > Downs(front[..k]);
      assert parts[..k] == front[..k];
    }
  }

  lemma {:induction false} SquashAppended(stack: seq<Name>, a: seq<Name>, b: seq<Name>)
    ensures Squash(stack, a + b) == Squash(Squash(stack, a), b)
    decreases |a|
  {
    hide Push;
    if a == [] {
      assert a + b == b;
    } else {
      assert (a + b)[1..] == a[1..] + b;
      SquashAppended(Push(stack, a[0]), a[1..], b);
    }
  }

  lemma SquashOneMore(front: seq<Name>, last: Name)
    ensures Squash([], front + [last]) == Push(Squash([], front), last)
  {
    hide Push;
    SquashAppended([], front, [last]);
    var one := [last];
    assert one[1..] == [];
  }

  /** The stack goes up if and only if the path was above its beginning; until then its height is the names less the "..". */
  lemma {:induction false} SquashClimbs(parts: seq<Name>)
    ensures var stack := Squash([], parts);
      if Climbs(parts) then GoesUp(stack) else PARENT !in stack && Downs(parts) == Ups(parts) + |stack|
    decreases |parts|
  {
    if parts == [] {
      assert parts[..0] == [];
    } else {
      var front, last := parts[..|parts| - 1], parts[|parts| - 1];
      assert parts == front + [last];
      SquashClimbs(front);
      SquashOneMore(front, last);
      ClimbsOneMore(front, last);
      hide Climbs, Squash;
    }
  }

  lemma StandingOneMore(front: seq<Name>, last: Name, ups: nat)
    ensures LeftStanding(front + [last], ups) ==
      if last == [] || last == [DOT] then LeftStanding(front, ups)
      else if last == PARENT then LeftStanding(front, ups + 1)
      else if ups > 0 then LeftStanding(front, ups - 1)
      else LeftStanding(front, 0) + [last]
  {
    assert (front + [last])[..|front|] == front;
  }

  lemma WithoutLast(stack: seq<Name>, last: Name, ups: nat)
    requires PARENT !in stack
    ensures last != [] && last != [DOT] && last != PARENT ==>
      Push(stack, last) == stack + [last] && (0 < ups <= |stack| + 1 ==> (stack + [last])[..|stack| + 1 - ups] == stack[..|stack| - (ups - 1)])
    ensures last == PARENT && stack != [] ==>
      Push(stack, last) == stack[..|stack| - 1] && (ups < |stack| ==> stack[..|stack| - 1][..|stack| - 1 - ups] == stack[..|stack| - (ups + 1)])
  {
  }

  /** What is left on the stack is what is left standing. */
  lemma {:induction false} SquashFromTheEnd(parts: seq<Name>, ups: nat)
    requires !Climbs(parts) && ups <= |Squash([], parts)|
    ensures LeftStanding(parts, ups) == Squash([], parts)[..|Squash([], parts)| - ups]
    decreases |parts|
  {
    if parts != [] {
      var front, last := parts[..|parts| - 1], parts[|parts| - 1];
      assert parts == front + [last];
      SquashClimbs(front);
      SquashClimbs(parts);
      SquashOneMore(front, last);
      ClimbsOneMore(front, last);
      StandingOneMore(front, last, ups);
      var stack := Squash([], front);
      WithoutLast(stack, last, ups);
      hide Climbs, Squash, LeftStanding;
      if last == [] || last == [DOT] {
        SquashFromTheEnd(front, ups);
      } else if last == PARENT {
        SquashFromTheEnd(front, ups + 1);
      } else if ups > 0 {
        SquashFromTheEnd(front, ups - 1);
      } else {
        SquashFromTheEnd(front, 0);
        assert stack[..|stack|] == stack;
      }
    }
  }

  lemma StandingAll(parts: seq<Name>)
    requires !Climbs(parts)
    ensures LeftStanding(parts, 0) == Squash([], parts)
  {
    hide Climbs, Squash, LeftStanding;
    SquashFromTheEnd(parts, 0);
    var stack := Squash([], parts);
    assert stack[..|stack|] == stack;
  }

  /* ── A request ───────────────────────────────────────────────────── */

  /** The parts of a request: either separator parts them. */
  function Components(requested: seq<byte>): seq<Name> { Split(Unbackslashed(requested), SLASH) }

  lemma SlashFirst(text: seq<byte>)
    requires text != [] && text[0] == SLASH
    ensures Split(text, SLASH) == [[]] + Split(text[1..], SLASH)
  {
    hide Split;
    SplitStep(text, SLASH);
    assert text[..0] == [];
  }

  lemma {:induction false} StripSquashes(text: seq<byte>)
    ensures Squash([], Split(StripLeading(text), SLASH)) == Squash([], Split(text, SLASH))
    decreases |text|
  {
    hide Split;
    if text != [] && text[0] == SLASH {
      SlashFirst(text);
      var parts := Split(text, SLASH);
      assert parts[1..] == Split(text[1..], SLASH);
      assert Squash([], parts) == Squash(Push([], []), parts[1..]);
      StripSquashes(text[1..]);
    }
  }

  /** What becomes of a stack. */
  lemma PartsOfStack(requested: seq<byte>)
    requires NUL !in requested
    ensures var stack := Squash([], Components(requested));
      PartsOf(requested) ==
        if GoesUp(stack) then Err(RequestEscapes)
        else if stack == [] && EndsWithSlash(StripLeading(Unbackslashed(requested))) then Ok([[DOT]])
        else Ok(stack)
  {
    hide Split, Squash;
    var text := StripLeading(Unbackslashed(requested));
    StripSquashes(Unbackslashed(requested));
    SquashHasNoDot([], Components(requested));
    var stack := Squash([], Components(requested));
    var whole := if stack == [] then [[DOT]] else stack;
    NonEmptyOfPlain(stack);
    assert NonEmpty([[DOT]]) == [[DOT]] + NonEmpty([[DOT]][1..]) == [[DOT]];
    NonEmptyAppended(whole, [[]]);
    assert whole + [] == whole && NonEmpty([[]]) == NonEmpty([[]][1..]) == [];
    if EndsWithSlash(text) { assert |NormalParts(text)| >= 2; }
  }

  /** A request is refused for leading out if and only if somewhere on its way it would be above the root, and for its NUL if and
      only if it has one; of any other the names left standing are what is walked, but the component "." for the root with a slash. */
  lemma RequestFromTheEnd(requested: seq<byte>)
    ensures PartsOf(requested) == Err(NulInRequest) <==> NUL in requested
    ensures PartsOf(requested) == Err(RequestEscapes) <==> NUL !in requested && Climbs(Components(requested))
    ensures NUL !in requested && !Climbs(Components(requested)) ==>
      var standing := LeftStanding(Components(requested), 0);
      PartsOf(requested) == Ok(if standing == [] && EndsWithSlash(StripLeading(Unbackslashed(requested))) then [[DOT]] else standing)
  {
    hide PartsOf, Components, Climbs, LeftStanding, Squash;
    if NUL in requested {
      assert PartsOf(requested) == Err(NulInRequest) by { HasNul(requested); }
    } else {
      PartsOfStack(requested);
      SquashClimbs(Components(requested));
      if !Climbs(Components(requested)) { StandingAll(Components(requested)); }
    }
  }

  lemma HasNul(requested: seq<byte>)
    requires NUL in requested
    ensures PartsOf(requested) == Err(NulInRequest)
  {
  }

  /** One separator is as good as the other, and those in front say nothing. */
  lemma SeparatorsAreOne(a: seq<byte>, b: seq<byte>)
    ensures PartsOf(a + [BACKSLASH] + b) == PartsOf(a + [SLASH] + b)
    ensures PartsOf([SLASH] + a) == PartsOf(a)
  {
    assert Unbackslashed(a + [BACKSLASH] + b) == Unbackslashed(a + [SLASH] + b);
    assert Unbackslashed([SLASH] + a) == [SLASH] + Unbackslashed(a);
    assert ([SLASH] + Unbackslashed(a))[1..] == Unbackslashed(a);
  }

  /* ── Names, and names taken back ─────────────────────────────────── */

  /** Components as they can stand in a request. */
  predicate Written(parts: seq<Name>) { forall p :: p in parts ==> SLASH !in p && NUL !in p && BACKSLASH !in p }

  predicate EndsInAName(parts: seq<Name>) { parts != [] ==> parts[|parts| - 1] != [] }

  lemma UnbackslashedIs(text: seq<byte>)
    requires BACKSLASH !in text
    ensures Unbackslashed(text) == text
  {
  }

  lemma {:induction false} JoinEnds(parts: seq<Name>)
    requires parts != [] && parts[|parts| - 1] != []
    ensures var text := Join(parts, SLASH); text != [] && text[|text| - 1] == parts[|parts| - 1][|parts[|parts| - 1]| - 1]
    decreases |parts|
  {
    if |parts| > 1 {
      JoinEnds(parts[1..]);
    }
  }

  lemma {:induction false} StripEnds(text: seq<byte>)
    ensures StripLeading(text) != [] ==> text != [] && StripLeading(text)[|StripLeading(text)| - 1] == text[|text| - 1]
  {
    if text != [] && text[0] == SLASH {
      StripEnds(text[1..]);
    }
  }

  lemma PartsOfJoin(parts: seq<Name>)
    requires Written(parts) && EndsInAName(parts)
    ensures PartsOf(Join(parts, SLASH)) == if GoesUp(Squash([], parts)) then Err(RequestEscapes) else Ok(Squash([], parts))
  {
    hide Split, Squash, Join, PartsOf, StripLeading, Unbackslashed;
    var text := Join(parts, SLASH);
    if parts == [] {
      assert PartsOf(Join([], SLASH)) == Ok([]) && Squash([], []) == [] by { NothingAsked(); }
    } else {
      assert forall p :: p in parts ==> SLASH !in p && NUL !in p && BACKSLASH !in p;
      SplitJoin(parts, SLASH);
      JoinBytes(parts, NUL);
      JoinBytes(parts, BACKSLASH);
      UnbackslashedIs(text);
      JoinEnds(parts);
      var last := parts[|parts| - 1];
      assert last in parts && last[|last| - 1] in last;
      StripEnds(text);
      PartsOfStack(text);
      assert Components(text) == parts;
    }
  }

  lemma NothingAsked()
    ensures PartsOf(Join([], SLASH)) == Ok([]) && Squash([], []) == []
  {
    assert Unbackslashed([]) == [];
    assert Squash([], Split([], SLASH)) == Squash([], Split([], SLASH)[1..]) == [];
  }

  lemma {:induction false} SquashNames(stack: seq<Name>, names: seq<Name>)
    requires forall n :: n in names ==> IsName(n)
    ensures Squash(stack, names) == stack + names
    decreases |names|
  {
    if names == [] {
      assert stack + names == stack;
    } else {
      assert names[0] in names;
      SquashNames(stack + [names[0]], names[1..]);
      assert stack + [names[0]] + names[1..] == stack + names;
    }
  }

  /** A path of names is those names. */
  lemma NamesAreThemselves(names: seq<Name>)
    requires forall n :: n in names ==> IsName(n) && BACKSLASH !in n
    ensures PartsOf(Join(names, SLASH)) == Ok(names)
  {
    hide Squash, PartsOf;
    SquashNames([], names);
    assert [] + names == names;
    if names != [] { assert names[|names| - 1] in names && names[0] in names; }
    PartsOfJoin(names);
  }

  lemma SquashUndone(stack: seq<Name>, name: Name)
    requires IsName(name)
    ensures Squash(stack, [name, PARENT]) == stack
  {
    var two := [name, PARENT];
    var one := two[1..];
    assert one == [PARENT] && one[1..] == [];
    assert Push(stack, name) == stack + [name];
    assert (stack + [name])[..|stack|] == stack;
    assert Squash(stack, two) == Squash(stack + [name], one);
    assert Squash(stack + [name], one) == Squash(stack, []);
  }

  /** A name and a ".." after it change nothing, wherever they stand. */
  lemma UpUndoesAName(a: seq<Name>, name: Name, b: seq<Name>)
    requires IsName(name) && BACKSLASH !in name && Written(a + b) && EndsInAName(a + b)
    ensures PartsOf(Join(a + [name, PARENT] + b, SLASH)) == PartsOf(Join(a + b, SLASH))
  {
    hide Squash, PartsOf, Join;
    var longer := a + [name, PARENT] + b;
    SquashAppended([], a + [name, PARENT], b);
    SquashAppended([], a, [name, PARENT]);
    SquashAppended([], a, b);
    SquashUndone(Squash([], a), name);
    PartsOfJoin(a + b);
    forall p | p in longer ensures SLASH !in p && NUL !in p && BACKSLASH !in p {
      assert p in a + b || p == name || p == PARENT;
    }
    if b != [] { assert longer[|longer| - 1] == b[|b| - 1] == (a + b)[|a + b| - 1]; }
    PartsOfJoin(longer);
  }

  /* ── A link's target ─────────────────────────────────────────────── */

  lemma {:induction false} SplitJoined(inside: seq<Name>, target: seq<byte>)
    requires forall n :: n in inside ==> SLASH !in n
    ensures Split(Join(inside + [target], SLASH), SLASH) == inside + Split(target, SLASH)
    decreases |inside|
  {
    hide Split;
    if inside == [] {
      assert inside + [target] == [target];
    } else {
      assert inside[0] in inside;
      SplitJoined(inside[1..], target);
      var all := inside + [target];
      assert all[1..] == inside[1..] + [target];
      var rest := Join(all[1..], SLASH);
      FirstOf(inside[0], rest);
      assert inside == [inside[0]] + inside[1..];
    }
  }

  lemma FirstOf(first: Name, rest: seq<byte>)
    requires SLASH !in first
    ensures Split(first + [SLASH] + rest, SLASH) == [first] + Split(rest, SLASH)
  {
    hide Split;
    var text := first + [SLASH] + rest;
    SplitStep(text, SLASH);
    assert text[|first|] == SLASH && forall i :: 0 <= i < |first| ==> text[i] == first[i];
    assert IndexOf(text, SLASH, 0) == |first|;
    assert text[..|first|] == first && text[|first| + 1..] == rest;
  }

  lemma {:induction false} JoinedEnds(inside: seq<Name>, target: seq<byte>)
    requires target != []
    ensures EndsWithSlash(Join(inside + [target], SLASH)) <==> EndsWithSlash(target)
  {
    hide Join;
    JoinEnds(inside + [target]);
  }

  /** A relative target is read from the link's directory, and refused if and only if on its way it would be above the root. What
      it leads to is the names left standing, with the slash it ends with. */
  lemma RelativeLink(inside: seq<Name>, target: seq<byte>, realRoot: Path)
    requires target != [] && target[0] != SLASH && forall n :: n in inside ==> SLASH !in n
    ensures var parts := inside + Split(target, SLASH);
      AfterLink(inside, target, realRoot) ==
        if Climbs(parts) then Err(LinkEscapes)
        else
          var standing := LeftStanding(parts, 0);
          Ok(if !EndsWithSlash(target) then standing else (if standing == [] then [[DOT]] else standing) + [[]])
  {
    hide Split, Squash, Climbs, LeftStanding, Join;
    var parts := inside + Split(target, SLASH);
    SplitJoined(inside, target);
    JoinedEnds(inside, target);
    SquashClimbs(parts);
    SquashHasNoDot([], parts);
    if !Climbs(parts) { StandingAll(parts); }
    var stack := Squash([], parts);
    assert stack + [] == stack;
    if EndsWithSlash(target) { assert |NormalParts(Join(inside + [target], SLASH))| >= 2; }
  }

  /** An absolute target leads to the names left standing of it, when they begin with the root's own path. */
  lemma AbsoluteLink(inside: seq<Name>, target: seq<byte>, realRoot: Path)
    requires target != [] && target[0] == SLASH
    ensures var landed := LeftStanding(Split(target, SLASH), 0);
      AfterLink(inside, target, realRoot) == if realRoot <= landed then Ok(landed[|realRoot|..]) else Err(LinkEscapes)
  {
    hide Split, Resolve, LeftStanding;
    var parts := Split(target, SLASH);
    ResolveFromTheEnd(parts, 0);
    var landed := Resolve([], parts);
    assert landed[..|landed|] == landed;
  }

  function UpTimes(k: nat): (ups: seq<Name>)
    ensures |ups| == k && forall i :: 0 <= i < k ==> ups[i] == PARENT
  {
    seq(k, i => PARENT)
  }

  lemma {:induction false} SquashUp(stack: seq<Name>, k: nat)
    requires forall n :: n in stack ==> IsName(n)
    ensures if k <= |stack| then Squash(stack, UpTimes(k)) == stack[..|stack| - k]
            else Squash(stack, UpTimes(k)) == UpTimes(k - |stack|)
    decreases k
  {
    if k == 0 {
      assert stack[..|stack|] == stack;
    } else {
      assert UpTimes(k) == UpTimes(k - 1) + [PARENT];
      SquashAppended(stack, UpTimes(k - 1), [PARENT]);
      SquashUp(stack, k - 1);
      var before := Squash(stack, UpTimes(k - 1));
      var one := [PARENT];
      assert one[1..] == [];
      assert Squash(before, one) == Squash(Push(before, PARENT), []) == Push(before, PARENT);
      if k <= |stack| {
        assert before[|before| - 1] == stack[|stack| - k] && stack[|stack| - k] in stack;
      } else {
        assert before == UpTimes(k - 1 - |stack|);
        assert UpTimes(k - |stack|) == before + [PARENT];
      }
    }
  }

  lemma TargetSplits(inside: seq<Name>, parts: seq<Name>)
    requires parts != [] && (forall p :: p in parts ==> p != [] && SLASH !in p) && forall n :: n in inside ==> SLASH !in n
    ensures var target := Join(parts, SLASH);
      && target != [] && target[0] != SLASH && !EndsWithSlash(target)
      && NormalParts(Join(inside + [target], SLASH)) == if Squash([], inside + parts) == [] then [[DOT]] else Squash([], inside + parts)
  {
    hide Split, Squash, Join;
    var target := Join(parts, SLASH);
    SplitJoin(parts, SLASH);
    var first, last := parts[0], parts[|parts| - 1];
    assert first in parts && first[0] in first && last in parts && last[|last| - 1] in last;
    JoinStart(parts);
    JoinEnds(parts);
    SplitJoined(inside, target);
    JoinedEnds(inside, target);
    var stack := Squash([], inside + parts);
    assert stack + [] == stack;
  }

  lemma SquashLink(inside: seq<Name>, k: nat, names: seq<Name>)
    requires (forall n :: n in inside ==> IsName(n)) && (forall n :: n in names ==> IsName(n))
    ensures Squash([], inside + (UpTimes(k) + names))
         == if k <= |inside| then inside[..|inside| - k] + names else UpTimes(k - |inside|) + names
  {
    hide Squash, IsName;
    SquashAppended([], inside, UpTimes(k) + names);
    SquashAppended(inside, UpTimes(k), names);
    SquashNames([], inside);
    assert [] + inside == inside;
    SquashUp(inside, k);
    SquashNames(Squash(inside, UpTimes(k)), names);
  }

  /** So many "..", then names: that many directories up from the link's own, and refused when there are not so many. */
  lemma LinkGoesUp(inside: seq<Name>, k: nat, names: seq<Name>, realRoot: Path)
    requires (forall n :: n in inside ==> IsName(n)) && (forall n :: n in names ==> IsName(n)) && k + |names| > 0
    ensures AfterLink(inside, Join(UpTimes(k) + names, SLASH), realRoot)
         == if k <= |inside| then Ok(inside[..|inside| - k] + names) else Err(LinkEscapes)
  {
    hide NormalParts, Squash, Join;
    var parts := UpTimes(k) + names;
    assert forall p :: p in parts ==> p == PARENT || p in names;
    TargetSplits(inside, parts);
    SquashLink(inside, k, names);
    if k <= |inside| {
      var stack := inside[..|inside| - k] + names;
      if stack != [] { assert stack[0] in inside || stack[0] in names; }
    }
  }
}
