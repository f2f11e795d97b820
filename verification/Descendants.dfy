/** The processes a shell started, and those they started: parentage read from a listing of /proc, closed off by a queue. */
module Descendants {
  /** A process and its parent, as its stat line says. */
  datatype Process = Process(pid: nat, parent: int)

  /** The children of one process, in the order they are listed. */
  function ChildrenIn(listing: seq<Process>, parent: int): (children: seq<nat>)
    ensures forall c :: c in children <==> Process(c, parent) in listing
  {
    if listing == [] then []
    else (if listing[0].parent == parent then [listing[0].pid] else []) + ChildrenIn(listing[1..], parent)
  }

  function Get(children: map<int, seq<nat>>, parent: int): seq<nat> {
    if parent in children then children[parent] else []
  }

  /** Started by the process, or by one that was, over so many generations. */
  ghost predicate Below(listing: seq<Process>, pid: int, p: nat, generations: nat)
    decreases generations
  {
    if generations == 0 then Process(p, pid) in listing
    else exists q: nat :: Below(listing, pid, q, generations - 1) && Process(p, q) in listing
  }

  ghost predicate IsDescendant(listing: seq<Process>, pid: int, p: nat) {
    exists generations: nat :: Below(listing, pid, p, generations)
  }

  lemma ChildOf(listing: seq<Process>, pid: int, at: nat, c: nat)
    requires at == pid || IsDescendant(listing, pid, at)
    requires Process(c, at) in listing
    ensures IsDescendant(listing, pid, c)
  {
    if at == pid {
      assert Below(listing, pid, c, 0);
    } else {
      var generations: nat :| Below(listing, pid, at, generations);
      assert Below(listing, pid, c, generations + 1);
    }
  }

  /** What holds the children of the process and the children of all it holds, holds every descendant. */
  lemma {:induction false} ClosedHoldsAll(listing: seq<Process>, pid: int, held: set<nat>, p: nat, generations: nat)
    requires forall c: nat :: Process(c, pid) in listing ==> c in held
    requires forall q, c: nat :: q in held && Process(c, q) in listing ==> c in held
    requires Below(listing, pid, p, generations)
    ensures p in held
    decreases generations
  {
    if generations > 0 {
      var q: nat :| Below(listing, pid, q, generations - 1) && Process(p, q) in listing;
      ClosedHoldsAll(listing, pid, held, q, generations - 1);
    }
  }

  lemma ChildrenPush(listing: seq<Process>, p: Process, parent: int)
    ensures ChildrenIn(listing + [p], parent) == ChildrenIn(listing, parent) + (if p.parent == parent then [p.pid] else [])
  {
    if listing == [] {
      assert (listing + [p])[1..] == [];
    } else {
      assert (listing + [p])[1..] == listing[1..] + [p];
      ChildrenPush(listing[1..], p, parent);
    }
  }

  method Parentage(listing: seq<Process>) returns (children: map<int, seq<nat>>)
    ensures forall parent :: Get(children, parent) == ChildrenIn(listing, parent)
  {
    children := map[];
    var i := 0;
    while i < |listing|
      invariant 0 <= i <= |listing|
      invariant forall parent :: Get(children, parent) == ChildrenIn(listing[..i], parent)
    {
      var p, before := listing[i], children;
      assert listing[..i + 1] == listing[..i] + [p];
      children := children[p.parent := Get(children, p.parent) + [p.pid]];
      forall parent
        ensures Get(children, parent) == ChildrenIn(listing[..i + 1], parent)
      {
        ChildrenPush(listing[..i], p, parent);
        assert Get(before, parent) == ChildrenIn(listing[..i], parent);
      }
      i := i + 1;
    }
    assert listing[..i] == listing;
  }

  function Pids(listing: seq<Process>): set<nat> { set p | p in listing :: p.pid }

  predicate Distinct(s: seq<nat>) { forall i, j :: 0 <= i < j < |s| ==> s[i] != s[j] }

  function Elements(s: seq<nat>): set<nat> { set x | x in s }

  /** Exactly the descendants, each once. A listing may be of different moments: a circle of parents is gone round once. */
  method DescendantsOf(pid: nat, listing: seq<Process>) returns (found: seq<nat>)
    ensures Distinct(found)
    ensures forall p: nat :: p in found <==> IsDescendant(listing, pid, p)
  {
    hide ChildrenIn, Below, Pids;
    var children := Parentage(listing);
    var queue := [pid];
    found := [];
    ghost var done: set<nat> := {};
    while |queue| > 0
      invariant Distinct(found)
      invariant forall p :: p in found ==> p in Pids(listing) && IsDescendant(listing, pid, p)
      invariant forall q :: q in queue ==> q == pid || q in found
      invariant pid in done || pid in queue
      invariant forall q :: q in found ==> q in done || q in queue
      invariant forall q, c: nat :: q in done && Process(c, q) in listing ==> c in found
      decreases Pids(listing) - Elements(found), |queue|
    {
      var at := queue[0];
      ghost var was := queue;
      queue := queue[1..];
      assert was == [at] + queue;
      var mine := Get(children, at);
      var i := 0;
      ghost var before, left := found, queue;
      while i < |mine|
        invariant 0 <= i <= |mine|
        invariant Distinct(found)
        invariant before <= found
        invariant found == before ==> queue == left
        invariant forall p :: p in found ==> p in Pids(listing) && IsDescendant(listing, pid, p)
        invariant forall q :: q in queue ==> q == pid || q in found
        invariant pid in done || pid == at || pid in queue
        invariant forall q :: q in found ==> q in done || q == at || q in queue
        invariant forall c :: c in mine[..i] ==> c in found
      {
        var child := mine[i];
        assert mine[..i + 1] == mine[..i] + [child];
        assert child in mine;
        if child !in found {
          ChildOf(listing, pid, at, child);
          Listed(listing, child, at);
          found := found + [child];
          queue := queue + [child];
        }
        i := i + 1;
      }
      assert mine[..i] == mine;
      done := done + {at};
      if found != before { Grew(Pids(listing), before, found); }
    }
    forall p: nat | IsDescendant(listing, pid, p)
      ensures p in found
    {
      var generations: nat :| Below(listing, pid, p, generations);
      ClosedHoldsAll(listing, pid, Elements(found), p, generations);
    }
  }

  lemma Grew(all: set<nat>, before: seq<nat>, found: seq<nat>)
    requires before < found && Distinct(found) && forall p :: p in found ==> p in all
    ensures all - Elements(found) < all - Elements(before)
  {
    var p := found[|before|];
    assert forall i :: 0 <= i < |before| ==> before[i] == found[i];
    assert p in found && p !in before;
    assert p in all - Elements(before) && p !in all - Elements(found);
    assert forall q :: q in Elements(before) ==> q in Elements(found);
  }

  lemma Listed(listing: seq<Process>, child: nat, parent: int)
    requires Process(child, parent) in listing
    ensures child in Pids(listing)
  {
  }
}
