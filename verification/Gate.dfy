/** The gate: a fixed number of places, handed straight to the next in line. */
module Gate {
  import opened Bytes

  /** Callers are numbered as they arrive. `running` and `waiting` are the gate's own; the rest is what became of the callers:
      who was given a place, who has one and has not resumed yet, whose work has begun and whose is not finished. */
  datatype State = State(
    running: nat, waiting: seq<nat>,
    arrived: nat, given: seq<nat>, resuming: seq<nat>, began: seq<nat>, inside: set<nat>, givenBack: nat)

  /** A resolved promise continues in a later turn: being given a place and resuming are two events. */
  datatype Event = Arrive | Resume | Finish(caller: nat)

  const EMPTY := State(0, [], 0, [], [], [], {}, 0)

  predicate Enabled(s: State, e: Event) {
    match e
    case Arrive => true
    case Resume => s.resuming != []
    case Finish(caller) => caller in s.inside && s.running > 0
  }

  function Release(s: State): State
    requires s.running > 0
  {
    if s.waiting != [] then
      var next := s.waiting[0];
      s.(waiting := s.waiting[1..], given := s.given + [next], resuming := s.resuming + [next])
    else s.(running := s.running - 1)
  }

  function Begin(s: State, caller: nat): State { s.(began := s.began + [caller], inside := s.inside + {caller}) }

  /** Work finishes by returning or by throwing. What cannot happen changes nothing. */
  function Step(s: State, limit: int, e: Event): State {
    if !Enabled(s, e) then s
    else match e
      case Arrive =>
        var t := s.(arrived := s.arrived + 1);
        if s.running >= Max(1, limit) then t.(waiting := s.waiting + [s.arrived])
        else Begin(t.(running := s.running + 1, given := s.given + [s.arrived]), s.arrived)
      case Resume => Begin(s.(resuming := s.resuming[1..]), s.resuming[0])
      case Finish(caller) => Release(s.(inside := s.inside - {caller}, givenBack := s.givenBack + 1))
  }

  function After(limit: int, events: seq<Event>): State
    decreases |events|
  {
    if events == [] then EMPTY
    else Step(After(limit, events[..|events| - 1]), limit, events[|events| - 1])
  }

  /** Every event of these could happen when it did. */
  predicate Possible(limit: int, events: seq<Event>)
    decreases |events|
  {
    events == [] ||
    (Possible(limit, events[..|events| - 1]) && Enabled(After(limit, events[..|events| - 1]), events[|events| - 1]))
  }

  class Places {
    const limit: int
    var running: nat
    var waiting: seq<nat>
    ghost var arrived: nat
    ghost var given: seq<nat>
    ghost var resuming: seq<nat>
    ghost var began: seq<nat>
    ghost var inside: set<nat>
    ghost var givenBack: nat

    ghost function Callers(): State
      reads this
    {
      State(running, waiting, arrived, given, resuming, began, inside, givenBack)
    }

    constructor (limit: int)
      ensures Callers() == EMPTY && this.limit == limit
    {
      this.limit := limit;
      running, waiting := 0, [];
      arrived, given, resuming, began, inside, givenBack := 0, [], [], [], {}, 0;
    }

    /** A call arrives: its work begins, or it waits for its place. */
    method Enter(me: nat) returns (begins: bool)
      requires me == arrived
      modifies this
      ensures Callers() == Step(old(Callers()), limit, Arrive)
      ensures begins <==> old(running) < Max(1, limit)
    {
      arrived := arrived + 1;
      begins := running < Max(1, limit);
      if !begins {
        waiting := waiting + [me];
      } else {
        running := running + 1;
        given, began, inside := given + [me], began + [me], inside + {me};
      }
    }

    /** The promise a waiting call was given resolves in a later turn, and its work begins. */
    ghost method Continue()
      requires resuming != []
      modifies this`began, this`inside, this`resuming
      ensures Callers() == Step(old(Callers()), limit, Resume)
    {
      began, inside, resuming := began + [resuming[0]], inside + {resuming[0]}, resuming[1..];
    }

    /** Work is over, and its place is given back. */
    method GiveBack(caller: nat)
      requires caller in inside && running > 0
      modifies this
      ensures Callers() == Step(old(Callers()), limit, Finish(caller))
    {
      inside, givenBack := inside - {caller}, givenBack + 1;
      if waiting != [] {
        given, resuming := given + [waiting[0]], resuming + [waiting[0]];
        waiting := waiting[1..];
      } else {
        running := running - 1;
      }
    }

    method Run(events: seq<Event>)
      requires Callers() == EMPTY && Possible(limit, events)
      modifies this
      ensures Callers() == After(limit, events)
    {
      var i, arrivals := 0, 0;
      while i < |events|
        invariant 0 <= i <= |events| && arrivals == arrived
        invariant Callers() == After(limit, events[..i])
      {
        assert events[..i + 1][..i] == events[..i];
        PossibleAt(limit, events, i);
        match events[i] {
          case Arrive =>
            var _ := Enter(arrivals);
            arrivals := arrivals + 1;
          case Resume => Continue();
          case Finish(caller) => GiveBack(caller);
        }
        i := i + 1;
      }
      assert events[..i] == events;
    }
  }

  lemma {:induction false} PossibleAt(limit: int, events: seq<Event>, i: nat)
    requires Possible(limit, events) && i < |events|
    ensures Enabled(After(limit, events[..i]), events[i])
    decreases |events|
  {
    if i < |events| - 1 {
      assert events[..|events| - 1][..i] == events[..i];
      PossibleAt(limit, events[..|events| - 1], i);
    }
  }

  /* ── What every run keeps ────────────────────────────────────────── */

  predicate Ascending(s: seq<nat>) { forall i, j :: 0 <= i < j < |s| ==> s[i] < s[j] }

  /** Places are given in the order of arrival, and somebody waits only while all are taken. */
  predicate PlacesKept(s: State, limit: int) {
    && s.running <= Max(1, limit)
    && (s.waiting != [] ==> s.running == Max(1, limit))
    && s.given + s.waiting == seq(s.arrived, i => i)
    && s.running == |s.given| - s.givenBack
  }

  /** Whoever has a place is at work, or about to be; nobody is twice. */
  predicate CallersKept(s: State) {
    && s.running == |s.inside| + |s.resuming|
    && Ascending(s.resuming)
    && (forall c :: c in s.resuming ==> c < |s.given| && c !in s.inside && c !in s.began)
    && (forall c :: c in s.began ==> c < |s.given|)
    && (forall c :: c in s.inside ==> c in s.began)
    && (forall c :: 0 <= c < |s.given| ==> c in s.began || c in s.resuming)
  }

  predicate Good(s: State, limit: int) { PlacesKept(s, limit) && CallersKept(s) }

  lemma WhoIsNext(s: State, limit: int)
    requires PlacesKept(s, limit)
    ensures s.waiting == [] ==> |s.given| == s.arrived
    ensures s.waiting != [] ==> s.waiting[0] == |s.given|
  {
    assert |s.given + s.waiting| == s.arrived;
    if s.waiting != [] {
      assert s.waiting[0] == (s.given + s.waiting)[|s.given|];
    }
  }

  lemma PlacesAfter(s: State, limit: int, e: Event)
    requires PlacesKept(s, limit) && Enabled(s, e)
    ensures PlacesKept(Step(s, limit, e), limit)
  {
    var t := Step(s, limit, e);
    if e.Arrive? {
      assert t.given + t.waiting == s.given + s.waiting + [s.arrived];
      assert seq(t.arrived, i => i) == seq(s.arrived, i => i) + [s.arrived];
    } else if e.Finish? && s.waiting != [] {
      assert s.waiting == [s.waiting[0]] + t.waiting;
      assert t.given + t.waiting == s.given + s.waiting;
    }
  }

  lemma CallersAfterArrive(s: State, limit: int)
    requires CallersKept(s) && (s.waiting == [] ==> |s.given| == s.arrived) && (s.waiting != [] ==> s.running == Max(1, limit))
    ensures CallersKept(Step(s, limit, Arrive))
  {
  }

  lemma CallersAfterResume(s: State, limit: int)
    requires CallersKept(s) && s.resuming != []
    ensures CallersKept(Step(s, limit, Resume))
  {
    hide Ascending;
    AllButTheFirst(s.resuming);
    var t := Step(s, limit, Resume);
    assert t.resuming == s.resuming[1..] && t.began == s.began + [s.resuming[0]] && t.inside == s.inside + {s.resuming[0]};
  }

  lemma AllButTheFirst(s: seq<nat>)
    requires Ascending(s) && s != []
    ensures Ascending(s[1..]) && s[0] !in s[1..] && s[0] in s
    ensures forall c :: c in s <==> c == s[0] || c in s[1..]
  {
    assert s == [s[0]] + s[1..];
  }

  lemma CallersAfterFinish(s: State, limit: int, caller: nat)
    requires CallersKept(s) && Enabled(s, Finish(caller)) && (s.waiting != [] ==> s.waiting[0] == |s.given|)
    ensures CallersKept(Step(s, limit, Finish(caller)))
  {
    assert forall i :: 0 <= i < |s.resuming| ==> s.resuming[i] in s.resuming;
  }

  lemma {:induction false} AlwaysGood(limit: int, events: seq<Event>)
    ensures Good(After(limit, events), limit)
    decreases |events|
  {
    hide PlacesKept, CallersKept, Step;
    if events == [] {
      EmptyIsGood(limit);
    } else {
      AlwaysGood(limit, events[..|events| - 1]);
      StepIsGood(After(limit, events[..|events| - 1]), limit, events[|events| - 1]);
    }
  }

  lemma StepIsGood(s: State, limit: int, e: Event)
    requires Good(s, limit)
    ensures Good(Step(s, limit, e), limit)
  {
    hide CallersKept;
    if Enabled(s, e) {
      WhoIsNext(s, limit);
      PlacesAfter(s, limit, e);
      match e
      case Arrive => CallersAfterArrive(s, limit);
      case Resume => CallersAfterResume(s, limit);
      case Finish(caller) => CallersAfterFinish(s, limit, caller);
    }
  }

  lemma EmptyIsGood(limit: int)
    ensures Good(EMPTY, limit)
  {
  }

  /** Never more at work than there are places, and nobody waits while a place is free. */
  lemma NeverMoreThanTheLimit(limit: int, events: seq<Event>)
    ensures var s := After(limit, events);
      && |s.inside| <= s.running <= Max(1, limit)
      && (s.waiting != [] ==> s.running == Max(1, limit))
      && (s.inside == {} && s.resuming == [] ==> s.waiting == [])
  {
    hide After;
    AlwaysGood(limit, events);
  }

  lemma Beginning(a: seq<nat>, b: seq<nat>, n: nat)
    requires a + b == seq(n, i => i)
    ensures a == seq(|a|, i => i) && |a| + |b| == n
  {
    assert |a + b| == n;
    assert forall i :: 0 <= i < |a| ==> a[i] == (a + b)[i];
  }

  /** Places are given in the order of arrival, and as many as have come free: nobody overtakes, and no place is lost. */
  lemma PlacesInOrderOfArrival(limit: int, events: seq<Event>)
    ensures var s := After(limit, events);
      && s.given == seq(|s.given|, i => i)
      && |s.given| == Min(s.arrived, s.givenBack + Max(1, limit))
      && s.given + s.waiting == seq(s.arrived, i => i)
  {
    hide After;
    AlwaysGood(limit, events);
    var s := After(limit, events);
    Beginning(s.given, s.waiting, s.arrived);
  }

  lemma {:induction false} OnlyMore(limit: int, events: seq<Event>, more: seq<Event>)
    ensures After(limit, events + more).arrived >= After(limit, events).arrived
    ensures After(limit, events + more).givenBack >= After(limit, events).givenBack
    decreases |more|
  {
    if more == [] {
      assert events + more == events;
    } else {
      assert (events + more)[..|events + more| - 1] == events + more[..|more| - 1];
      OnlyMore(limit, events, more[..|more| - 1]);
    }
  }

  /** The k-th in line has a place once k have been given back, whoever arrives meanwhile. */
  lemma TheKthWaiter(limit: int, events: seq<Event>, more: seq<Event>, k: nat)
    requires 1 <= k <= |After(limit, events).waiting|
    ensures var s, t := After(limit, events), After(limit, events + more);
      s.waiting[k - 1] in t.given <==> t.givenBack >= s.givenBack + k
  {
    hide After;
    AlwaysGood(limit, events);
    PlacesInOrderOfArrival(limit, events);
    PlacesInOrderOfArrival(limit, events + more);
    OnlyMore(limit, events, more);
    var s, t := After(limit, events), After(limit, events + more);
    var place := |s.given| + k - 1;
    assert s.waiting[k - 1] == (s.given + s.waiting)[place] == place;
    assert place < |t.given| ==> t.given[place] == place;
  }

  /** Whoever arrived has begun, or waits, or has a place and is about to resume; and those resume in the order they arrived. */
  lemma WhereEveryoneIs(limit: int, events: seq<Event>, caller: nat)
    requires caller < After(limit, events).arrived
    ensures var s := After(limit, events);
      && (caller in s.began || caller in s.resuming || caller in s.waiting)
      && (caller in s.began ==> caller !in s.resuming && caller !in s.waiting)
      && Ascending(s.resuming + s.waiting)
  {
    hide After;
    AlwaysGood(limit, events);
    PlacesInOrderOfArrival(limit, events);
    var s := After(limit, events);
    var all := s.given + s.waiting;
    assert forall i :: 0 <= i < |s.waiting| ==> s.waiting[i] == all[|s.given| + i] == |s.given| + i;
    if caller >= |s.given| {
      assert s.waiting[caller - |s.given|] == caller;
    }
    forall i, j | 0 <= i < j < |s.resuming + s.waiting|
      ensures (s.resuming + s.waiting)[i] < (s.resuming + s.waiting)[j]
    {
      if i < |s.resuming| <= j {
        assert s.resuming[i] in s.resuming;
      }
    }
  }

  /* ── In which order work begins ──────────────────────────────────── */

  /** Somebody arrived to a free place while a call that had been given one was still to resume. */
  predicate Overtakes(s: State, limit: int, e: Event) { e.Arrive? && s.running < Max(1, limit) && s.resuming != [] }

  predicate Overtook(limit: int, events: seq<Event>)
    decreases |events|
  {
    events != [] &&
    (Overtook(limit, events[..|events| - 1]) || Overtakes(After(limit, events[..|events| - 1]), limit, events[|events| - 1]))
  }

  lemma AscendingParts(a: seq<nat>, b: seq<nat>, n: nat)
    requires Ascending(a + [n] + b)
    ensures Ascending(a + b) && (b != [] ==> n < b[0])
  {
    var all := a + [n] + b;
    forall i, j | 0 <= i < j < |a + b| ensures (a + b)[i] < (a + b)[j] {
      var k, l := if i < |a| then i else i + 1, if j < |a| then j else j + 1;
      assert all[k] == (a + b)[i] && all[l] == (a + b)[j];
    }
    if b != [] { assert all[|a|] == n && all[|a| + 1] == b[0]; }
  }

  lemma AscendingPush(a: seq<nat>, n: nat)
    ensures Ascending(a + [n]) <==> Ascending(a) && forall c :: c in a ==> c < n
  {
    var all := a + [n];
    assert all[|a|] == n && forall i :: 0 <= i < |a| ==> all[i] == a[i];
    if Ascending(all) {
      forall i, j | 0 <= i < j < |a| ensures a[i] < a[j] { assert all[i] < all[j]; }
      forall c | c in a ensures c < n {
        var i :| 0 <= i < |a| && a[i] == c;
        assert all[i] < all[|a|];
      }
    }
    if Ascending(a) && forall c :: c in a ==> c < n {
      forall i, j | 0 <= i < j < |all| ensures all[i] < all[j] {
        assert all[i] == a[i] && a[i] in a;
        if j < |a| { assert a[i] < a[j]; }
      }
    }
  }

  lemma OrderAfterArrive(s: State, limit: int)
    requires Good(s, limit) && s.running < Max(1, limit)
    ensures Ascending(s.began + [s.arrived] + s.resuming) <==> Ascending(s.began + s.resuming) && s.resuming == []
  {
    WhoIsNext(s, limit);
    hide Ascending;
    if s.resuming == [] {
      assert s.began + [s.arrived] + s.resuming == s.began + [s.arrived] && s.began + s.resuming == s.began;
      AscendingPush(s.began, s.arrived);
    } else {
      assert s.resuming[0] in s.resuming;
      if Ascending(s.began + [s.arrived] + s.resuming) { AscendingParts(s.began, s.resuming, s.arrived); }
    }
  }

  lemma OrderAfterFinish(s: State, limit: int)
    requires Good(s, limit) && s.waiting != []
    ensures Ascending(s.began + s.resuming + [s.waiting[0]]) <==> Ascending(s.began + s.resuming)
  {
    WhoIsNext(s, limit);
    hide Ascending;
    AscendingPush(s.began + s.resuming, s.waiting[0]);
  }

  /** One event keeps the order of beginnings, unless it overtakes; and an order that is lost is not found again. */
  lemma OrderAfter(s: State, limit: int, e: Event)
    requires Good(s, limit)
    ensures var t := Step(s, limit, e);
      Ascending(t.began + t.resuming) <==> Ascending(s.began + s.resuming) && !Overtakes(s, limit, e)
  {
    hide Ascending, Good;
    var t := Step(s, limit, e);
    if Enabled(s, e) {
      match e
      case Arrive =>
        if s.running < Max(1, limit) { OrderAfterArrive(s, limit); }
      case Resume => assert t.began + t.resuming == s.began + s.resuming;
      case Finish(_) =>
        if s.waiting != [] {
          assert t.began + t.resuming == s.began + s.resuming + [s.waiting[0]];
          OrderAfterFinish(s, limit);
        }
    }
  }

  /** Work begins in the order of arrival exactly when no newcomer found a place free while an earlier caller, already given
      one, was still to resume. */
  lemma {:induction false} BeginsInOrderIff(limit: int, events: seq<Event>)
    ensures var s := After(limit, events); Ascending(s.began + s.resuming) <==> !Overtook(limit, events)
    decreases |events|
  {
    hide Step, Good, Overtakes;
    if events == [] {
      assert EMPTY.began + EMPTY.resuming == [];
    } else {
      BeginsInOrderIff(limit, events[..|events| - 1]);
      AlwaysGood(limit, events[..|events| - 1]);
      OrderAfter(After(limit, events[..|events| - 1]), limit, events[|events| - 1]);
    }
  }

  /** The callers who waited and have resumed, in the order they did. */
  function Resumed(limit: int, events: seq<Event>): seq<nat>
    decreases |events|
  {
    if events == [] then []
    else
      var s := After(limit, events[..|events| - 1]);
      Resumed(limit, events[..|events| - 1]) + if events[|events| - 1].Resume? && s.resuming != [] then [s.resuming[0]] else []
  }

  predicate Begun(callers: seq<nat>, s: State) { forall c :: c in callers ==> c in s.began && c < |s.given| }

  /** Those who waited begin in the order they arrived in, whoever overtakes them. */
  lemma {:induction false} WaitersKeepTheirOrder(limit: int, events: seq<Event>)
    ensures var s := After(limit, events);
      && Ascending(Resumed(limit, events) + s.resuming + s.waiting)
      && Begun(Resumed(limit, events), s)
    decreases |events|
  {
    hide Ascending, Good, Step, Begun;
    if events == [] {
      var none: seq<nat> := [];
      NoneAscend(EMPTY);
      assert Resumed(limit, events) == none && none + EMPTY.resuming + EMPTY.waiting == none;
    } else {
      var before, e := events[..|events| - 1], events[|events| - 1];
      WaitersKeepTheirOrder(limit, before);
      AlwaysGood(limit, before);
      LineAfter(After(limit, before), limit, e, Resumed(limit, before));
    }
  }

  lemma NoneAscend(s: State)
    ensures Ascending([]) && Begun([], s)
  {
  }

  /** The line of those who wait and those who waited, after one event. */
  lemma LineIs(s: State, limit: int, e: Event, r: seq<nat>)
    ensures var t, more := Step(s, limit, e), r + if e.Resume? && s.resuming != [] then [s.resuming[0]] else [];
      more + t.resuming + t.waiting
      == r + s.resuming + s.waiting + if e.Arrive? && s.running >= Max(1, limit) then [s.arrived] else []
  {
    var t, more := Step(s, limit, e), r + if e.Resume? && s.resuming != [] then [s.resuming[0]] else [];
    if e.Finish? && Enabled(s, e) && s.waiting != [] {
      assert s.waiting == [s.waiting[0]] + t.waiting;
    }
  }

  lemma LineAfter(s: State, limit: int, e: Event, r: seq<nat>)
    requires Good(s, limit) && Ascending(r + s.resuming + s.waiting)
    requires Begun(r, s)
    ensures var t, more := Step(s, limit, e), r + if e.Resume? && s.resuming != [] then [s.resuming[0]] else [];
      && Ascending(more + t.resuming + t.waiting)
      && Begun(more, t)
  {
    hide Ascending;
    LineIs(s, limit, e, r);
    ResumedAfter(s, limit, e, r);
    hide Step, Good;
    WaitersAreEarlier(s, limit, r);
    AscendingPush(r + s.resuming + s.waiting, s.arrived);
    assert r + s.resuming + s.waiting + [] == r + s.resuming + s.waiting;
  }

  lemma ResumedAfter(s: State, limit: int, e: Event, r: seq<nat>)
    requires Good(s, limit) && Begun(r, s)
    ensures var t, more := Step(s, limit, e), r + if e.Resume? && s.resuming != [] then [s.resuming[0]] else [];
      Begun(more, t)
  {
    hide Ascending;
    if e.Resume? && s.resuming != [] { assert s.resuming[0] in s.resuming; }
  }

  lemma WaitersAreEarlier(s: State, limit: int, r: seq<nat>)
    requires Good(s, limit) && forall c :: c in r ==> c < |s.given|
    ensures forall c :: c in r + s.resuming + s.waiting ==> c < s.arrived
  {
    var all := s.given + s.waiting;
    assert |all| == s.arrived;
    forall c | c in s.waiting ensures c < s.arrived {
      var i :| 0 <= i < |s.waiting| && s.waiting[i] == c;
      assert all[|s.given| + i] == c;
    }
  }

  /** And that can happen. */
  lemma ANewcomerMayBeginFirst()
    ensures After(2, [Arrive, Arrive, Arrive, Finish(0), Finish(1), Arrive, Resume]).began == [0, 1, 3, 2]
  {
    hide After;
    var e0: seq<Event>, e1, e2, e3 := [], [Arrive], [Arrive, Arrive], [Arrive, Arrive, Arrive];
    var e4, e5 := e3 + [Finish(0)], e3 + [Finish(0), Finish(1)];
    NothingYet();
    Next(e0, Arrive, e1);
    Next(e1, Arrive, e2);
    Next(e2, Arrive, e3);
    assert After(2, e3) == State(2, [2], 3, [0, 1], [], [0, 1], {0, 1}, 0);
    Next(e3, Finish(0), e4);
    assert After(2, e4) == State(2, [], 3, [0, 1, 2], [2], [0, 1], {1}, 1);
    Next(e4, Finish(1), e5);
    assert After(2, e5) == State(1, [], 3, [0, 1, 2], [2], [0, 1], {}, 2);
    Next(e5, Arrive, e5 + [Arrive]);
    Next(e5 + [Arrive], Resume, [Arrive, Arrive, Arrive, Finish(0), Finish(1), Arrive, Resume]);
  }

  lemma NothingYet()
    ensures After(2, []) == EMPTY
  {
  }

  lemma Next(events: seq<Event>, e: Event, all: seq<Event>)
    requires all == events + [e]
    ensures After(2, all) == Step(After(2, events), 2, e)
  {
    assert all[..|all| - 1] == events;
  }
}
