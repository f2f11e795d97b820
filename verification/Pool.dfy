/** A few at a time: the lanes of mapPool, and what they leave behind under every interleaving. */
module Pool {
  import opened Bytes

  /** A lane has not been entered yet, awaits the work of one item, or has left its loop. */
  datatype Lane = Waiting | At(item: nat) | Left

  datatype Slot<R> = Empty | Settled(outcome: R)

  /** What the lanes share, the lanes themselves, and the calls of `work` so far in their order. */
  datatype State<R> = State(next: nat, results: seq<Slot<R>>, lanes: seq<Lane>, calls: seq<nat>)

  /** Control passes between lanes only where one is entered or the work it awaits settles. */
  datatype Event = Enter(lane: nat) | Settle(lane: nat)

  function LaneCount(limit: int, items: nat): (n: nat)
    ensures n >= 1
  {
    Max(1, Min(limit, items))
  }

  function Started<R>(items: nat, limit: int): State<R> {
    State(0, seq(items, i => Empty), seq(LaneCount(limit, items), i => Waiting), [])
  }

  /** The head of a lane's loop: the next item is claimed and its work called, or the loop is left. */
  function Claim<R>(s: State<R>, lane: nat): State<R>
    requires lane < |s.lanes|
  {
    if s.next < |s.results| then
      s.(next := s.next + 1, lanes := s.lanes[lane := At(s.next)], calls := s.calls + [s.next])
    else s.(lanes := s.lanes[lane := Left])
  }

  predicate Enabled<R>(s: State<R>, e: Event) {
    match e
    case Enter(lane) => lane < |s.lanes| && s.lanes[lane].Waiting?
    case Settle(lane) => lane < |s.lanes| && s.lanes[lane].At? && s.lanes[lane].item < |s.results|
  }

  /** `outcomes` is how the work of each item ends, with a value or a throw. What cannot happen changes nothing. */
  function Step<R>(s: State<R>, outcomes: seq<R>, e: Event): State<R>
    requires |outcomes| == |s.results|
  {
    if !Enabled(s, e) then s
    else if e.Enter? then Claim(s, e.lane)
    else
      var at := s.lanes[e.lane].item;
      Claim(s.(results := s.results[at := Settled(outcomes[at])]), e.lane)
  }

  function After<R>(outcomes: seq<R>, limit: int, events: seq<Event>): (s: State<R>)
    ensures |s.results| == |outcomes|
    decreases |events|
  {
    if events == [] then Started(|outcomes|, limit)
    else Step(After(outcomes, limit, events[..|events| - 1]), outcomes, events[|events| - 1])
  }

  class Lanes<R(==)> {
    var next: nat
    var results: array<Slot<R>>
    var lanes: seq<Lane>
    var calls: seq<nat>

    function Shared(): State<R>
      reads this, results
    {
      State(next, results[..], lanes, calls)
    }

    constructor (items: nat, limit: int)
      ensures Shared() == Started(items, limit)
      ensures fresh(results)
    {
      next, calls := 0, [];
      results := new Slot<R>[items](i => Empty);
      lanes := seq(LaneCount(limit, items), i => Waiting);
    }

    method Loop(lane: nat)
      requires lane < |lanes|
      modifies this`next, this`lanes, this`calls
      ensures Shared() == Claim(old(Shared()), lane)
    {
      if next < results.Length {
        var at := next;
        next := next + 1;
        lanes, calls := lanes[lane := At(at)], calls + [at];
      } else {
        lanes := lanes[lane := Left];
      }
    }

    method Continue(outcomes: seq<R>, e: Event)
      requires |outcomes| == results.Length && Enabled(Shared(), e)
      modifies this`next, this`lanes, this`calls, results
      ensures Shared() == Step(old(Shared()), outcomes, e)
    {
      if e.Settle? {
        var at := lanes[e.lane].item;
        results[at] := Settled(outcomes[at]);
        assert results[..] == old(results[..])[at := Settled(outcomes[at])];
      }
      Loop(e.lane);
    }

    method Run(outcomes: seq<R>, limit: int, events: seq<Event>)
      requires |outcomes| == results.Length && Shared() == Started(|outcomes|, limit)
      modifies this, results
      ensures Shared() == After(outcomes, limit, events)
    {
      var i := 0;
      while i < |events|
        invariant 0 <= i <= |events| && results == old(results)
        invariant Shared() == After(outcomes, limit, events[..i])
      {
        assert events[..i + 1][..i] == events[..i];
        if Enabled(Shared(), events[i]) { Continue(outcomes, events[i]); }
        i := i + 1;
      }
      assert events[..i] == events;
    }
  }

  /* ── What every interleaving keeps ───────────────────────────────── */

  predicate Held(lanes: seq<Lane>, item: nat) { exists l :: 0 <= l < |lanes| && lanes[l] == At(item) }

  /** How many lanes are as this one is not: the lanes not entered, and those awaiting work. */
  function WaitingLanes(lanes: seq<Lane>): nat {
    if lanes == [] then 0 else WaitingLanes(lanes[1..]) + if lanes[0].Waiting? then 1 else 0
  }

  function InFlight(lanes: seq<Lane>): (n: nat)
    ensures n + WaitingLanes(lanes) <= |lanes|
  {
    if lanes == [] then 0 else InFlight(lanes[1..]) + if lanes[0].At? then 1 else 0
  }

  lemma {:induction false} CountsAfter(lanes: seq<Lane>, l: nat, lane: Lane)
    requires l < |lanes|
    ensures WaitingLanes(lanes[l := lane]) - (if lane.Waiting? then 1 else 0)
         == WaitingLanes(lanes) - (if lanes[l].Waiting? then 1 else 0)
    ensures InFlight(lanes[l := lane]) - (if lane.At? then 1 else 0) == InFlight(lanes) - (if lanes[l].At? then 1 else 0)
  {
    if l == 0 {
      assert lanes[l := lane][1..] == lanes[1..];
    } else {
      assert lanes[l := lane][1..] == lanes[1..][l - 1 := lane];
      CountsAfter(lanes[1..], l - 1, lane);
    }
  }

  /** Items are claimed from the first on, each by one lane; what was claimed is awaited or has its own outcome. */
  ghost predicate Good<R>(s: State<R>, outcomes: seq<R>, limit: int) {
    && |s.results| == |outcomes| && |s.lanes| == LaneCount(limit, |outcomes|) && s.next <= |outcomes|
    && s.calls == seq(s.next, i => i)
    && (forall l :: 0 <= l < |s.lanes| && s.lanes[l].At? ==> s.lanes[l].item < s.next)
    && (forall l, m :: 0 <= l < m < |s.lanes| && s.lanes[l].At? ==> s.lanes[l] != s.lanes[m])
    && (forall l :: 0 <= l < |s.lanes| && s.lanes[l].Left? ==> s.next == |outcomes|)
    && (forall i :: 0 <= i < |outcomes| ==>
          s.results[i] == if i < s.next && !Held(s.lanes, i) then Settled(outcomes[i]) else Empty)
  }

  /** The events still to come: lanes to enter, items to claim, work to settle. */
  function ToCome<R>(s: State<R>): int { WaitingLanes(s.lanes) + |s.results| - s.next + InFlight(s.lanes) }

  lemma HeldAfter(lanes: seq<Lane>, l: nat, lane: Lane, item: nat)
    requires l < |lanes|
    requires lanes[l] == At(item) ==> forall m :: 0 <= m < |lanes| && m != l ==> lanes[m] != At(item)
    ensures Held(lanes[l := lane], item) <==> lane == At(item) || (Held(lanes, item) && lanes[l] != At(item))
  {
    var after := lanes[l := lane];
    if Held(lanes, item) && lanes[l] != At(item) {
      var m :| 0 <= m < |lanes| && lanes[m] == At(item);
      assert after[m] == At(item);
    }
    if lane == At(item) {
      assert after[l] == At(item);
    }
  }

  lemma StepIsGood<R>(s: State<R>, outcomes: seq<R>, limit: int, e: Event)
    requires Good(s, outcomes, limit) && Enabled(s, e)
    ensures Good(Step(s, outcomes, e), outcomes, limit)
    ensures ToCome(Step(s, outcomes, e)) == ToCome(s) - 1
  {
    hide Held, WaitingLanes, InFlight;
    var t, l := Step(s, outcomes, e), e.lane;
    CountsAfter(s.lanes, l, t.lanes[l]);
    forall i | 0 <= i < |outcomes|
      ensures Held(t.lanes, i) <==> t.lanes[l] == At(i) || (Held(s.lanes, i) && s.lanes[l] != At(i))
    {
      HeldAfter(s.lanes, l, t.lanes[l], i);
    }
    if e.Settle? {
      HeldThere(s.lanes, l);
    }
    if s.next < |outcomes| {
      assert !Held(s.lanes, s.next) by {
        if Held(s.lanes, s.next) { HeldBy(s.lanes, s.next); }
      }
    }
  }

  lemma HeldThere(lanes: seq<Lane>, l: nat)
    requires l < |lanes| && lanes[l].At?
    ensures Held(lanes, lanes[l].item)
  {
  }

  lemma HeldBy(lanes: seq<Lane>, item: nat)
    requires Held(lanes, item)
    ensures exists l :: 0 <= l < |lanes| && lanes[l] == At(item)
  {
  }

  lemma {:induction false} NoneEntered(lanes: seq<Lane>)
    requires forall l :: 0 <= l < |lanes| ==> lanes[l].Waiting?
    ensures WaitingLanes(lanes) == |lanes| && InFlight(lanes) == 0
  {
    if lanes != [] {
      NoneEntered(lanes[1..]);
    }
  }

  lemma {:induction false} AlwaysGood<R>(outcomes: seq<R>, limit: int, events: seq<Event>)
    ensures Good(After(outcomes, limit, events), outcomes, limit)
    decreases |events|
  {
    if events != [] {
      var before, e := After(outcomes, limit, events[..|events| - 1]), events[|events| - 1];
      AlwaysGood(outcomes, limit, events[..|events| - 1]);
      if Enabled(before, e) {
        StepIsGood(before, outcomes, limit, e);
      }
    }
  }

  /** Each item's work is called once, in their order, and never more than the limit are awaited at a time. */
  lemma NeverMoreThanTheLimit<R>(outcomes: seq<R>, limit: int, events: seq<Event>)
    ensures var s := After(outcomes, limit, events);
      && s.calls == seq(s.next, i => i) && s.next <= |outcomes|
      && InFlight(s.lanes) <= Max(1, Min(limit, |outcomes|))
  {
    AlwaysGood(outcomes, limit, events);
  }

  function Entered(n: nat): seq<Event> { seq(n, i requires 0 <= i < n => Enter(i)) }

  /** And as many as that are, as soon as every lane is entered: the limit when it is less than the items, all of them when it is
      not, and one at least when there is one. */
  lemma {:induction false} AsManyAsAllowed<R>(outcomes: seq<R>, limit: int, n: nat)
    requires n <= (if limit < 1 || |outcomes| < 1 then 1 else if limit < |outcomes| then limit else |outcomes|)
    ensures var s := After(outcomes, limit, Entered(n));
      && n <= |s.lanes| && s.next == Min(n, |outcomes|)
      && (forall l :: 0 <= l < n && l < |outcomes| ==> s.lanes[l] == At(l))
      && (forall l :: n <= l < |s.lanes| ==> s.lanes[l].Waiting?)
    decreases n
  {
    AlwaysGood(outcomes, limit, Entered(n));
    if n > 0 {
      assert Entered(n)[..n - 1] == Entered(n - 1) && Entered(n)[n - 1] == Enter(n - 1);
      AsManyAsAllowed(outcomes, limit, n - 1);
    }
  }

  predicate Returned<R>(s: State<R>) { forall l :: 0 <= l < |s.lanes| ==> s.lanes[l].Left? }

  /** At return every slot holds the outcome of its own item, whichever items threw. */
  lemma EveryOutcomeInItsSlot<R>(outcomes: seq<R>, limit: int, events: seq<Event>)
    requires Returned(After(outcomes, limit, events))
    ensures var s := After(outcomes, limit, events);
      && |s.results| == |outcomes| && s.calls == seq(|outcomes|, i => i)
      && forall i :: 0 <= i < |outcomes| ==> s.results[i] == Settled(outcomes[i])
  {
    AlwaysGood(outcomes, limit, events);
    var s := After(outcomes, limit, events);
    assert s.lanes[0].Left?;
  }

  /** While it has not returned, something can happen: no lane waits for another. */
  lemma SomethingCanHappen<R>(outcomes: seq<R>, limit: int, events: seq<Event>)
    ensures var s := After(outcomes, limit, events); Returned(s) || exists e :: Enabled(s, e)
  {
    AlwaysGood(outcomes, limit, events);
    var s := After(outcomes, limit, events);
    if !Returned(s) {
      var l :| 0 <= l < |s.lanes| && !s.lanes[l].Left?;
      assert Enabled(s, if s.lanes[l].Waiting? then Enter(l) else Settle(l));
    }
  }

  /** Only what could happen. */
  predicate AllEnabled<R>(outcomes: seq<R>, limit: int, events: seq<Event>)
    decreases |events|
  {
    events == [] ||
    (AllEnabled(outcomes, limit, events[..|events| - 1]) && Enabled(After(outcomes, limit, events[..|events| - 1]), events[|events| - 1]))
  }

  /** It returns after every lane was entered and every item settled: exactly then, in whatever order. */
  lemma {:induction false} ReturnsWhenAllSettled<R>(outcomes: seq<R>, limit: int, events: seq<Event>)
    requires AllEnabled(outcomes, limit, events)
    ensures |events| <= LaneCount(limit, |outcomes|) + |outcomes|
    ensures Returned(After(outcomes, limit, events)) <==> |events| == LaneCount(limit, |outcomes|) + |outcomes|
  {
    CountsDown(outcomes, limit, events);
    AlwaysGood(outcomes, limit, events);
    var s := After(outcomes, limit, events);
    NothingLeft(s.lanes);
    if Returned(s) {
      assert s.lanes[0].Left?;
    }
  }

  lemma {:induction false} CountsDown<R>(outcomes: seq<R>, limit: int, events: seq<Event>)
    requires AllEnabled(outcomes, limit, events)
    ensures ToCome(After(outcomes, limit, events)) == LaneCount(limit, |outcomes|) + |outcomes| - |events|
    decreases |events|
  {
    if events == [] {
      NoneEntered(Started<R>(|outcomes|, limit).lanes);
    } else {
      CountsDown(outcomes, limit, events[..|events| - 1]);
      AlwaysGood(outcomes, limit, events[..|events| - 1]);
      StepIsGood(After(outcomes, limit, events[..|events| - 1]), outcomes, limit, events[|events| - 1]);
    }
  }

  lemma {:induction false} NothingLeft(lanes: seq<Lane>)
    ensures WaitingLanes(lanes) + InFlight(lanes) == 0 <==> forall l :: 0 <= l < |lanes| ==> lanes[l].Left?
  {
    if lanes != [] {
      NothingLeft(lanes[1..]);
      assert forall l :: 0 <= l < |lanes| - 1 ==> lanes[1..][l] == lanes[l + 1];
      assert forall l :: 1 <= l < |lanes| ==> lanes[l] == lanes[1..][l - 1];
    }
  }
}
