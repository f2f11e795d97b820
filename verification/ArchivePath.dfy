/** Where an archive entry's name lands: path.resolve under the directory, and the refusal of what leaves it. */
module ArchivePath {
  import opened Bytes

  type Name = seq<byte>
  type Path = seq<Name>

  const PARENT: Name := [DOT, DOT]

  datatype PathError = NullByte | Escapes

  /** A name a directory can hold. */
  predicate IsName(n: Name) {
    n != [] && n != [DOT] && n != PARENT && SLASH !in n && NUL !in n
  }

  predicate IsPath(p: Path) { forall n :: n in p ==> IsName(n) }

  predicate StartsWithBackslash(p: Path) { p != [] && p[0] != [] && p[0][0] == BACKSLASH }

  /** path.resolve, one part at a time: "" and "." stay, ".." goes up and stops at the top. */
  function Enter(at: Path, part: Name): Path {
    if part == [] || part == [DOT] then at
    else if part == PARENT then (if at == [] then [] else at[..|at| - 1])
    else at + [part]
  }

  function Resolve(at: Path, parts: seq<Name>): Path
    decreases |parts|
  {
    if parts == [] then at else Resolve(Enter(at, parts[0]), parts[1..])
  }

  /** replace(/^[/\\]+/, ""). */
  function StripSlashes(name: Name): (stripped: Name)
    ensures |stripped| <= |name|
    ensures stripped == [] || (stripped[0] != SLASH && stripped[0] != BACKSLASH)
  {
    if name != [] && (name[0] == SLASH || name[0] == BACKSLASH) then StripSlashes(name[1..]) else name
  }

  /** The path of an entry below the directory `base`, or a refusal. */
  function SafeJoin(base: Path, name: Name): Result<Path, PathError> {
    if NUL in name then Err(NullByte)
    else
      var target := Resolve(base, Split(StripSlashes(name), SLASH));
      if base <= target then Ok(target[|base|..]) else Err(Escapes)
  }

  /* ── Where a path leads, read from its end ───────────────────────── */

  /** The names of a path that no ".." after them takes back. Each ".." takes back the nearest name before it that still stands;
      `ups` counts those that have not found theirs yet. */
  function LeftStanding(parts: seq<Name>, ups: nat): seq<Name>
    decreases |parts|
  {
    if parts == [] then []
    else
      var front, last := parts[..|parts| - 1], parts[|parts| - 1];
      if last == [] || last == [DOT] then LeftStanding(front, ups)
      else if last == [DOT, DOT] then LeftStanding(front, ups + 1)
      else if ups > 0 then LeftStanding(front, ups - 1)
      else LeftStanding(front, 0) + [last]
  }

  lemma {:induction false} ResolveFromTheEnd(parts: seq<Name>, ups: nat)
    ensures var all := Resolve([], parts);
      LeftStanding(parts, ups) == if ups <= |all| then all[..|all| - ups] else []
    decreases |parts|
  {
    if parts != [] {
      var front, last := parts[..|parts| - 1], parts[|parts| - 1];
      var one := [last];
      assert parts == front + one && one[1..] == [];
      ResolveAppended([], front, one);
      assert Resolve([], parts) == Enter(Resolve([], front), last);
      ResolveFromTheEnd(front, ups);
      if last == PARENT {
        ResolveFromTheEnd(front, ups + 1);
      } else if ups > 0 {
        ResolveFromTheEnd(front, ups - 1);
      }
    }
  }

  /** An entry lands at the names that stand of the directory's path and its own, when they begin with the directory's. */
  lemma JoinFromTheEnd(base: Path, name: Name)
    requires IsPath(base)
    ensures SafeJoin(base, name) ==
      if NUL in name then Err(NullByte)
      else
        var landed := LeftStanding(base + Split(StripSlashes(name), SLASH), 0);
        if base <= landed then Ok(landed[|base|..]) else Err(Escapes)
  {
    hide Split, StripSlashes, LeftStanding, Resolve;
    var parts := Split(StripSlashes(name), SLASH);
    ResolveFromTheEnd(base + parts, 0);
    ResolveAppended([], base, parts);
    ResolveNames([], base);
    var landed := Resolve(base, parts);
    assert [] + base == base && landed[..|landed|] == landed;
  }

  /* ── Containment ─────────────────────────────────────────────────── */

  lemma SplitStep(s: Name, sep: byte)
    ensures var at := IndexOf(s, sep, 0);
      Split(s, sep) == if at == -1 then [s] else [s[..at]] + Split(s[at + 1..], sep)
  {
    hide IndexOf;
  }

  lemma {:induction false} SplitParts(s: Name, sep: byte)
    ensures forall p :: p in Split(s, sep) ==> sep !in p && forall b :: b in p ==> b in s
    decreases |s|
  {
    hide IndexOf, Split;
    var at := IndexOf(s, sep, 0);
    SplitStep(s, sep);
    if at != -1 {
      SplitParts(s[at + 1..], sep);
      PartsOfBoth(s, s[..at], Split(s[at + 1..], sep), sep);
    }
  }

  lemma PartsOfBoth(s: Name, first: Name, rest: seq<Name>, sep: byte)
    requires sep !in first && forall b :: b in first ==> b in s
    requires forall p :: p in rest ==> sep !in p && forall b :: b in p ==> b in s
    ensures forall p :: p in [first] + rest ==> sep !in p && forall b :: b in p ==> b in s
  {
  }

  lemma {:induction false} ResolveGivesNames(at: Path, parts: seq<Name>)
    requires IsPath(at) && forall p :: p in parts ==> SLASH !in p && NUL !in p
    ensures IsPath(Resolve(at, parts))
    decreases |parts|
  {
    if parts != [] {
      assert parts[0] in parts;
      assert IsPath(Enter(at, parts[0]));
      ResolveGivesNames(Enter(at, parts[0]), parts[1..]);
    }
  }

  /** Whatever name an archive holds, an entry lands on a plain path below the directory: no "..", no separator, no NUL in it. */
  lemma LandsBelow(base: Path, name: Name)
    requires IsPath(base)
    ensures SafeJoin(base, name).Ok? ==> IsPath(SafeJoin(base, name).value)
  {
    var s := StripSlashes(name);
    StrippedBytes(name);
    SplitParts(s, SLASH);
    if NUL !in name {
      ResolveGivesNames(base, Split(s, SLASH));
    }
  }

  lemma {:induction false} StrippedBytes(name: Name)
    ensures forall b :: b in StripSlashes(name) ==> b in name
  {
    if name != [] && (name[0] == SLASH || name[0] == BACKSLASH) {
      StrippedBytes(name[1..]);
    }
  }

  /* ── The names the archiver writes ───────────────────────────────── */

  lemma {:induction false} ResolveNames(at: Path, p: Path)
    requires IsPath(p)
    ensures Resolve(at, p) == at + p
    decreases |p|
  {
    if p == [] {
      assert at + p == at;
    } else {
      assert p[0] in p;
      ResolveNames(at + [p[0]], p[1..]);
      assert at + [p[0]] + p[1..] == at + p;
    }
  }

  lemma {:induction false} ResolveAppended(at: Path, p: Path, q: seq<Name>)
    ensures Resolve(at, p + q) == Resolve(Resolve(at, p), q)
    decreases |p|
  {
    if p == [] {
      assert p + q == q;
    } else {
      assert (p + q)[1..] == p[1..] + q;
      ResolveAppended(Enter(at, p[0]), p[1..], q);
    }
  }

  lemma {:induction false} JoinBytes(p: Path, b: byte)
    requires b != SLASH && forall n :: n in p ==> b !in n
    ensures b !in Join(p, SLASH)
    decreases |p|
  {
    if |p| > 1 {
      assert p[0] in p;
      JoinBytes(p[1..], b);
    }
  }

  lemma JoinStart(p: Path)
    requires p != [] && p[0] != []
    ensures |Join(p, SLASH)| >= |p[0]| && Join(p, SLASH)[0] == p[0][0]
  {
  }

  /** What a directory's entry is called: its path, closed with a slash. */
  lemma {:induction false} SplitClosed(p: Path)
    requires p != [] && forall n :: n in p ==> SLASH !in n
    ensures Split(Join(p, SLASH) + [SLASH], SLASH) == p + [[]]
    decreases |p|
  {
    assert Join(p + [[]], SLASH) == Join(p, SLASH) + [SLASH] by { JoinClosed(p); }
    SplitJoin(p + [[]], SLASH);
  }

  lemma {:induction false} JoinClosed(p: Path)
    requires p != []
    ensures Join(p + [[]], SLASH) == Join(p, SLASH) + [SLASH]
    decreases |p|
  {
    if |p| == 1 {
      assert (p + [[]])[1..] == [[]];
      assert Join(p + [[]], SLASH) == p[0] + [SLASH] + [];
    } else {
      JoinClosed(p[1..]);
      assert (p + [[]])[1..] == p[1..] + [[]];
    }
  }

  /** A path that does not begin with a backslash lands where it was taken from, as a file's name and as a directory's. */
  lemma WrittenNameLands(base: Path, p: Path)
    requires p != [] && IsPath(p) && !StartsWithBackslash(p)
    ensures SafeJoin(base, Join(p, SLASH)) == Ok(p)
    ensures SafeJoin(base, Join(p, SLASH) + [SLASH]) == Ok(p)
  {
    hide Join, Split, Resolve;
    assert p[0] in p;
    JoinStart(p);
    JoinBytes(p, NUL);
    var s := Join(p, SLASH);
    assert s[0] != SLASH by { assert p[0][0] in p[0]; }
    assert StripSlashes(s) == s && StripSlashes(s + [SLASH]) == s + [SLASH];
    assert forall n :: n in p ==> SLASH !in n;
    SplitJoin(p, SLASH);
    SplitClosed(p);
    ResolveNames(base, p);
    ClosedResolves(base, p);
    assert base <= base + p && (base + p)[|base|..] == p;
  }

  lemma ClosedResolves(base: Path, p: Path)
    requires IsPath(p)
    ensures Resolve(base, p + [[]]) == base + p
  {
    ResolveAppended(base, p, [[]]);
    ResolveNames(base, p);
    assert Resolve(base + p, [[]]) == Resolve(base + p, [[]][1..]);
  }

  /* A path that does begin with one is another path after the strip: it cannot come back. */

  function Weight(p: seq<Name>): nat { if p == [] then 0 else |p[0]| + 1 + Weight(p[1..]) }

  lemma {:induction false} WeightOf(p: seq<Name>, q: seq<Name>)
    ensures Weight(p + q) == Weight(p) + Weight(q)
    decreases |p|
  {
    if p == [] {
      assert p + q == q;
    } else {
      assert (p + q)[1..] == p[1..] + q;
      WeightOf(p[1..], q);
    }
  }

  lemma {:induction false} ResolveWeight(at: Path, parts: seq<Name>)
    ensures Weight(Resolve(at, parts)) <= Weight(at) + Weight(parts)
    decreases |parts|
  {
    if parts != [] {
      if at != [] {
        WeightOf(at[..|at| - 1], [at[|at| - 1]]);
        assert at == at[..|at| - 1] + [at[|at| - 1]];
      }
      WeightOf(at, [parts[0]]);
      assert Weight([parts[0]]) == |parts[0]| + 1 + Weight([parts[0]][1..]);
      ResolveWeight(Enter(at, parts[0]), parts[1..]);
    }
  }

  lemma WeightOfFirst(first: Name, rest: seq<Name>)
    ensures Weight([first] + rest) == |first| + 1 + Weight(rest)
  {
    assert ([first] + rest)[1..] == rest;
  }

  lemma {:induction false} SplitWeight(s: Name)
    ensures Weight(Split(s, SLASH)) == |s| + 1
    decreases |s|
  {
    hide IndexOf, Split, Weight;
    var at := IndexOf(s, SLASH, 0);
    SplitStep(s, SLASH);
    if at != -1 {
      SplitWeight(s[at + 1..]);
      WeightOfFirst(s[..at], Split(s[at + 1..], SLASH));
    } else {
      WeightOfFirst(s, []);
      NothingWeighs();
      assert [s] + [] == [s];
    }
  }

  lemma NothingWeighs()
    ensures Weight([]) == 0
  {
  }

  lemma {:induction false} JoinWeight(p: Path)
    requires p != []
    ensures Weight(p) == |Join(p, SLASH)| + 1
    decreases |p|
  {
    if |p| > 1 {
      JoinWeight(p[1..]);
    } else {
      assert p[1..] == [];
    }
  }

  /** Exactly the paths without a backslash in front come back: safeJoin takes a leading backslash for a separator, and Linux does not. */
  lemma LandsIffNoBackslash(base: Path, p: Path)
    requires p != [] && IsPath(p)
    ensures SafeJoin(base, Join(p, SLASH)) == Ok(p) <==> !StartsWithBackslash(p)
  {
    assert p[0] in p;
    if !StartsWithBackslash(p) {
      WrittenNameLands(base, p);
    } else {
      BackslashNeverLands(base, p);
    }
  }

  lemma BackslashNeverLands(base: Path, p: Path)
    requires IsPath(p) && StartsWithBackslash(p)
    ensures SafeJoin(base, Join(p, SLASH)) != Ok(p)
  {
    hide Join, Split, Resolve, Weight;
    JoinStart(p);
    var s := Join(p, SLASH);
    var stripped := StripSlashes(s);
    assert |stripped| < |s|;
    var parts := Split(stripped, SLASH);
    var target := Resolve(base, parts);
    SplitWeight(stripped);
    ResolveWeight(base, parts);
    JoinWeight(p);
    if base <= target && target[|base|..] == p {
      assert target == base + p;
      WeightOf(base, p);
    }
  }
}
