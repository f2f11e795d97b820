/** Terminal sessions: slots, shells and timers, over every run of calls, exits and the clock. */
module Terminal {
  import opened Bytes

  datatype Policy = Policy(maxSessions: nat, reservationMs: nat, idleMs: nat, maxMs: nat)

  /** A session as the callbacks hold it, in the map or out of it. The timers are known by what setTimeout answered.
      `touched` and `greeted` are history: when it was last used, and whether the stream took its first frame. */
  datatype Session = Session(
    openedAt: nat, shell: Option<nat>,
    reservation: Option<nat>, idle: Option<nat>, deadline: Option<nat>,
    closing: bool, touched: nat, greeted: bool)

  /** Every timer's callback ends its session. */
  datatype Timer = Timer(session: nat, due: nat)

  /** `sessions` is the map's keys; `objects` every session there was; `shells` every shell there was, and whose;
      `live` the shells that have neither exited nor been killed. Identities are never used twice. */
  datatype State = State(
    now: nat, objects: map<nat, Session>, sessions: set<nat>, armed: map<nat, Timer>,
    shells: map<nat, nat>, live: set<nat>, nextSession: nat, nextTimer: nat, nextShell: nat)

  const STARTED := State(0, map[], {}, map[], map[], {}, 0, 0, 0)

  /** What the agent is asked, what a shell does, and what the clock does. The flags are what the code cannot know beforehand:
      that the terminal is on, the library there and the shell started, and that a frame could be sent or written. */
  datatype Event =
    | Open(on: bool)
    | Attach(id: nat, library: bool, spawns: bool, sent: bool)
    | Use(id: nat, written: bool)
    | Close(id: nat)
    | CloseAll(order: seq<nat>)
    | Exit(shell: nat, told: bool)
    | Fire(timer: nat)
    | Tick(to: nat)

  /* ── The operations ──────────────────────────────────────────────── */

  function Handle(timer: Option<nat>): set<nat> { if timer.Some? then {timer.value} else {} }

  function TimersOf(o: Session): set<nat> { Handle(o.reservation) + Handle(o.idle) + Handle(o.deadline) }

  function End(s: State, id: nat, killShell: bool): State {
    if id !in s.objects || s.objects[id].closing then s
    else
      var o := s.objects[id];
      s.(objects := s.objects[id := o.(closing := true)],
         sessions := s.sessions - {id},
         armed := s.armed - TimersOf(o),
         live := if killShell then s.live - Handle(o.shell) else s.live)
  }

  function EndAll(s: State, order: seq<nat>): State
    decreases |order|
  {
    if order == [] then s
    else EndAll(if order[0] in s.sessions then End(s, order[0], true) else s, order[1..])
  }

  function Touch(s: State, policy: Policy, id: nat): State
    requires id in s.objects
  {
    var o := s.objects[id];
    s.(armed := (s.armed - Handle(o.idle))[s.nextTimer := Timer(id, s.now + policy.idleMs)],
       objects := s.objects[id := o.(idle := Some(s.nextTimer), touched := s.now)],
       nextTimer := s.nextTimer + 1)
  }

  function OpenSession(s: State, policy: Policy, on: bool): State {
    if !on || |s.sessions| >= policy.maxSessions then s
    else
      var id, timer := s.nextSession, s.nextTimer;
      s.(objects := s.objects[id := Session(s.now, None, Some(timer), None, None, false, s.now, false)],
         armed := s.armed[timer := Timer(id, s.now + policy.reservationMs)],
         sessions := s.sessions + {id},
         nextSession := id + 1, nextTimer := timer + 1)
  }

  /** The shell was started. A first frame that cannot be sent throws before the shell's events are listened to and the timers set. */
  function Bind(s: State, policy: Policy, id: nat, sent: bool): State
    requires id in s.objects
  {
    var o, shell := s.objects[id].(shell := Some(s.nextShell), openedAt := s.now, touched := s.now, greeted := sent), s.nextShell;
    var t := s.(shells := s.shells[shell := id], live := s.live + {shell}, nextShell := shell + 1, objects := s.objects[id := o]);
    if !sent then t
    else
      var timed := t.(
        armed := t.armed[t.nextTimer := Timer(id, t.now + policy.maxMs)],
        objects := t.objects[id := o.(deadline := Some(t.nextTimer))],
        nextTimer := t.nextTimer + 1);
      Touch(timed, policy, id)
  }

  predicate CanAttach(s: State, id: nat, library: bool) {
    id in s.sessions && id in s.objects && s.objects[id].shell.None? && library
  }

  function AttachShell(s: State, policy: Policy, id: nat, library: bool, spawns: bool, sent: bool): State {
    if !CanAttach(s, id, library) then s
    else
      var o := s.objects[id];
      var t := s.(armed := s.armed - Handle(o.reservation), objects := s.objects[id := o.(reservation := None)]);
      if !spawns then t.(sessions := t.sessions - {id}) else Bind(t, policy, id, sent)
  }

  predicate IsLive(s: State, id: nat) {
    id in s.sessions && id in s.objects && s.objects[id].shell.Some? && !s.objects[id].closing
  }

  function UseSession(s: State, policy: Policy, id: nat, written: bool): State {
    if !IsLive(s, id) || !written then s else Touch(s, policy, id)
  }

  /** A shell ends by itself: its handler, when there is one, says so to the stream and ends the session. */
  function ExitShell(s: State, shell: nat, told: bool): State {
    if shell !in s.live || shell !in s.shells || s.shells[shell] !in s.objects then s
    else
      var id, t := s.shells[shell], s.(live := s.live - {shell});
      if !s.objects[id].greeted || s.objects[id].closing || !told then t else End(t, id, false)
  }

  function FireTimer(s: State, timer: nat): State {
    if timer !in s.armed || s.armed[timer].due > s.now then s
    else End(s.(armed := s.armed - {timer}), s.armed[timer].session, true)
  }

  /** The clock does not pass a timer that is due. */
  function TickTo(s: State, to: nat): State {
    if to < s.now || exists t :: t in s.armed && s.armed[t].due < to then s else s.(now := to)
  }

  function Step(s: State, policy: Policy, e: Event): State {
    match e
    case Open(on) => OpenSession(s, policy, on)
    case Attach(id, library, spawns, sent) => AttachShell(s, policy, id, library, spawns, sent)
    case Use(id, written) => UseSession(s, policy, id, written)
    case Close(id) => if id in s.sessions then End(s, id, true) else s
    case CloseAll(order) => EndAll(s, order)
    case Exit(shell, told) => ExitShell(s, shell, told)
    case Fire(timer) => FireTimer(s, timer)
    case Tick(to) => TickTo(s, to)
  }

  function After(policy: Policy, events: seq<Event>): State
    decreases |events|
  {
    if events == [] then STARTED
    else Step(After(policy, events[..|events| - 1]), policy, events[|events| - 1])
  }

  /* ── The object ──────────────────────────────────────────────────── */

  /** What open, attach and the rest throw; `StreamFailed` is the stream's own error, not a refusal of the agent's. */
  datatype Refusal = Off | Busy | Unavailable | Attached | StreamFailed

  class TerminalSessions {
    const policy: Policy
    var now: nat
    var objects: map<nat, Session>
    var sessions: set<nat>
    var armed: map<nat, Timer>
    var shells: map<nat, nat>
    var live: set<nat>
    var nextSession: nat
    var nextTimer: nat
    var nextShell: nat

    function Here(): State
      reads this
    {
      State(now, objects, sessions, armed, shells, live, nextSession, nextTimer, nextShell)
    }

    constructor (policy: Policy)
      ensures Here() == STARTED && this.policy == policy
    {
      this.policy := policy;
      now, objects, sessions, armed, shells, live := 0, map[], {}, map[], map[], {};
      nextSession, nextTimer, nextShell := 0, 0, 0;
    }

    method SetTimeout(id: nat, ms: nat) returns (timer: nat)
      modifies this`armed, this`nextTimer
      ensures timer == old(nextTimer) && nextTimer == timer + 1
      ensures armed == old(armed)[timer := Timer(id, now + ms)]
    {
      timer := nextTimer;
      nextTimer := timer + 1;
      armed := armed[timer := Timer(id, now + ms)];
    }

    method ClearTimeout(timer: Option<nat>)
      modifies this`armed
      ensures armed == old(armed) - Handle(timer)
    {
      if timer.Some? { armed := armed - {timer.value}; }
    }

    method EndSession(id: nat, killShell: bool)
      modifies this
      ensures Here() == End(old(Here()), id, killShell)
    {
      if id !in objects || objects[id].closing { return; }
      var o := objects[id];
      objects := objects[id := o.(closing := true)];
      sessions := sessions - {id};
      ClearTimeout(o.reservation);
      ClearTimeout(o.idle);
      ClearTimeout(o.deadline);
      assert armed == old(armed) - TimersOf(o);
      if o.shell.Some? && killShell { live := live - {o.shell.value}; }
    }

    method TouchSession(id: nat)
      requires id in objects
      modifies this
      ensures Here() == Touch(old(Here()), policy, id)
    {
      ClearTimeout(objects[id].idle);
      var timer := SetTimeout(id, policy.idleMs);
      objects := objects[id := objects[id].(idle := Some(timer), touched := now)];
    }

    method Open(on: bool) returns (r: Result<nat, Refusal>)
      modifies this
      ensures Here() == OpenSession(old(Here()), policy, on)
      ensures r == if !on then Err(Off) else if |old(sessions)| >= policy.maxSessions then Err(Busy) else Ok(old(nextSession))
    {
      if !on { return Err(Off); }
      if |sessions| >= policy.maxSessions { return Err(Busy); }
      var id := nextSession;
      nextSession := id + 1;
      var timer := SetTimeout(id, policy.reservationMs);
      objects := objects[id := Session(now, None, Some(timer), None, None, false, now, false)];
      sessions := sessions + {id};
      return Ok(id);
    }

    method Attach(id: nat, library: bool, spawns: bool, sent: bool) returns (r: Result<nat, Refusal>)
      modifies this
      ensures Here() == AttachShell(old(Here()), policy, id, library, spawns, sent)
      ensures r.Ok? <==> CanAttach(old(Here()), id, library) && spawns && sent
      ensures r == Err(Attached) <==> id in old(sessions) && id in old(objects) && old(objects)[id].shell.Some?
      ensures r == Err(StreamFailed) <==> CanAttach(old(Here()), id, library) && spawns && !sent
    {
      if id !in sessions || id !in objects { return Err(Unavailable); }
      if objects[id].shell.Some? { return Err(Attached); }
      if !library { return Err(Unavailable); }
      ClearTimeout(objects[id].reservation);
      objects := objects[id := objects[id].(reservation := None)];
      if !spawns {
        sessions := sessions - {id};
        return Err(Unavailable);
      }
      var shell := nextShell;
      nextShell := shell + 1;
      shells, live := shells[shell := id], live + {shell};
      objects := objects[id := objects[id].(shell := Some(shell), openedAt := now, touched := now, greeted := sent)];
      if !sent { return Err(StreamFailed); }
      var deadline := SetTimeout(id, policy.maxMs);
      objects := objects[id := objects[id].(deadline := Some(deadline))];
      TouchSession(id);
      return Ok(shell);
    }

    method Use(id: nat, written: bool) returns (r: Result<(), Refusal>)
      modifies this
      ensures Here() == UseSession(old(Here()), policy, id, written)
      ensures r.Ok? <==> IsLive(old(Here()), id)
    {
      if id !in sessions || id !in objects || objects[id].shell.None? || objects[id].closing { return Err(Unavailable); }
      if written { TouchSession(id); }
      return Ok(());
    }

    method Close(id: nat) returns (closed: bool)
      modifies this
      ensures Here() == Step(old(Here()), policy, Event.Close(id)) && closed == (id in old(sessions))
    {
      closed := id in sessions;
      if closed { EndSession(id, true); }
    }

    /** The sessions of the map, in whatever order it lists them. */
    method CloseAll(order: seq<nat>)
      modifies this
      ensures Here() == EndAll(old(Here()), order)
    {
      hide End;
      var i := 0;
      while i < |order|
        invariant 0 <= i <= |order|
        invariant EndAll(Here(), order[i..]) == EndAll(old(Here()), order)
      {
        assert order[i..][0] == order[i] && order[i..][1..] == order[i + 1..];
        if order[i] in sessions { EndSession(order[i], true); }
        i := i + 1;
      }
    }

    method OnExit(shell: nat, told: bool)
      modifies this
      ensures Here() == ExitShell(old(Here()), shell, told)
    {
      if shell !in live || shell !in shells || shells[shell] !in objects { return; }
      var id := shells[shell];
      live := live - {shell};
      if objects[id].greeted && !objects[id].closing && told { EndSession(id, false); }
    }

    method OnTimer(timer: nat)
      requires timer in armed && armed[timer].due <= now
      modifies this
      ensures Here() == FireTimer(old(Here()), timer)
    {
      var id := armed[timer].session;
      armed := armed - {timer};
      EndSession(id, true);
    }

    method Happen(e: Event)
      modifies this
      ensures Here() == Step(old(Here()), policy, e)
    {
      hide OpenSession, AttachShell, UseSession, EndAll, ExitShell, End;
      match e {
        case Open(on) => var _ := Open(on);
        case Attach(id, library, spawns, sent) => var _ := Attach(id, library, spawns, sent);
        case Use(id, written) => var _ := Use(id, written);
        case Close(id) => var _ := Close(id);
        case CloseAll(order) => CloseAll(order);
        case Exit(shell, told) => OnExit(shell, told);
        case Fire(timer) => if timer in armed && armed[timer].due <= now { OnTimer(timer); }
        case Tick(to) => now := TickTo(Here(), to).now;
      }
    }

    method Run(events: seq<Event>)
      requires Here() == STARTED
      modifies this
      ensures Here() == After(policy, events)
    {
      hide Step;
      var i := 0;
      while i < |events|
        invariant 0 <= i <= |events| && Here() == After(policy, events[..i])
      {
        assert events[..i + 1][..i] == events[..i];
        Happen(events[i]);
        i := i + 1;
      }
      assert events[..i] == events;
    }
  }

  /* ── What every run keeps ────────────────────────────────────────── */

  predicate IsArmed(s: State, timer: Option<nat>, id: nat, due: nat) {
    timer.Some? && timer.value in s.armed && s.armed[timer.value] == Timer(id, due)
  }

  /** The timers a session has, by how far it came. */
  predicate TimersKept(s: State, policy: Policy, id: nat)
    requires id in s.objects
  {
    var o := s.objects[id];
    if o.shell.None? then
      !o.greeted && o.idle.None? && o.deadline.None? && IsArmed(s, o.reservation, id, o.openedAt + policy.reservationMs)
    else
      && o.reservation.None?
      && (o.deadline.Some? <==> o.greeted)
      && (o.greeted ==> IsArmed(s, o.deadline, id, o.openedAt + policy.maxMs) && o.idle.Some?)
      && (o.idle.Some? ==> IsArmed(s, o.idle, id, o.touched + policy.idleMs))
      && (o.idle.Some? && o.deadline.Some? ==> o.idle != o.deadline)
  }

  predicate SessionsKept(s: State, policy: Policy) {
    && |s.sessions| <= policy.maxSessions
    && (forall id :: id in s.sessions ==> id in s.objects && !s.objects[id].closing && TimersKept(s, policy, id))
    && (forall id :: id in s.objects ==> id < s.nextSession)
  }

  /** No timer is armed but those of sessions in the map, and none is overdue. */
  predicate ClockKept(s: State) {
    forall t :: t in s.armed ==>
      && t < s.nextTimer && s.armed[t].due >= s.now
      && s.armed[t].session in s.sessions && s.armed[t].session in s.objects
      && t in TimersOf(s.objects[s.armed[t].session])
  }

  predicate ShellsKept(s: State) {
    && (forall p :: p in s.shells ==> p < s.nextShell && s.shells[p] in s.objects && s.objects[s.shells[p]].shell == Some(p))
    && (forall p :: p in s.live ==> p in s.shells && s.shells[p] in s.sessions)
    && (forall id :: id in s.objects && s.objects[id].shell.Some? ==> s.objects[id].shell.value < s.nextShell)
  }

  predicate Good(s: State, policy: Policy) { SessionsKept(s, policy) && ClockKept(s) && ShellsKept(s) }

  /** A session in the map is kept as long as nobody touches it or its timers. */
  lemma TimersStay(s: State, t: State, policy: Policy, id: nat)
    requires id in s.objects && TimersKept(s, policy, id)
    requires id in t.objects && t.objects[id] == s.objects[id]
    requires forall timer :: timer in TimersOf(s.objects[id]) && timer in s.armed ==> timer in t.armed && t.armed[timer] == s.armed[timer]
    ensures TimersKept(t, policy, id)
  {
  }

  lemma ArmedForItself(s: State, policy: Policy, id: nat)
    requires id in s.objects && TimersKept(s, policy, id)
    ensures forall timer :: timer in TimersOf(s.objects[id]) ==> timer in s.armed && s.armed[timer].session == id
  {
  }

  lemma OneFewer(a: set<nat>, id: nat)
    ensures |a - {id}| <= |a|
  {
    if id in a {
      assert a == (a - {id}) + {id};
    } else {
      assert a - {id} == a;
    }
  }

  /** Ending a session, or losing it from the map: its timers go, the others' stay. */
  lemma OthersStay(s: State, t: State, policy: Policy, id: nat)
    requires SessionsKept(s, policy) && ClockKept(s) && id in s.sessions
    requires t.now == s.now && t.nextTimer == s.nextTimer && t.nextSession == s.nextSession
    requires t.sessions == s.sessions - {id} && t.armed == s.armed - TimersOf(s.objects[id])
    requires t.objects.Keys == s.objects.Keys && forall j :: j in s.objects && j != id ==> t.objects[j] == s.objects[j]
    ensures SessionsKept(t, policy) && ClockKept(t)
  {
    hide TimersKept, TimersOf;
    ArmedForItself(s, policy, id);
    OneFewer(s.sessions, id);
    forall j | j in t.sessions
      ensures TimersKept(t, policy, j)
    {
      ArmedForItself(s, policy, j);
      TimersStay(s, t, policy, j);
    }
  }

  lemma EndIsGood(s: State, policy: Policy, id: nat, killShell: bool)
    requires Good(s, policy) && id in s.sessions
    requires killShell || forall p :: p in s.live ==> s.shells[p] != id
    ensures Good(End(s, id, killShell), policy)
    ensures End(s, id, killShell).sessions == s.sessions - {id}
  {
    hide TimersKept, TimersOf;
    OthersStay(s, End(s, id, killShell), policy, id);
  }

  lemma {:induction false} EndAllIsGood(s: State, policy: Policy, order: seq<nat>)
    requires Good(s, policy)
    ensures Good(EndAll(s, order), policy)
    ensures EndAll(s, order).sessions == s.sessions - set id | id in order
    decreases |order|
  {
    hide Good, End;
    if order != [] {
      var t := if order[0] in s.sessions then End(s, order[0], true) else s;
      if order[0] in s.sessions {
        EndIsGood(s, policy, order[0], true);
      }
      EndAllIsGood(t, policy, order[1..]);
      assert order == [order[0]] + order[1..];
    }
  }

  /** Nothing was done to any session but this one. */
  ghost predicate OthersSame(s: State, t: State, id: nat) {
    && t.now == s.now && t.nextTimer >= s.nextTimer && t.nextSession >= s.nextSession
    && id in t.objects && id in t.sessions && id < t.nextSession
    && (forall j :: j != id ==> (j in t.sessions <==> j in s.sessions))
    && (forall j :: j != id ==> (j in t.objects <==> j in s.objects))
    && (forall j :: j != id && j in s.objects ==> t.objects[j] == s.objects[j])
  }

  predicate OtherTimersStay(s: State, t: State, id: nat) {
    forall timer :: timer in s.armed && s.armed[timer].session != id ==> timer in t.armed && t.armed[timer] == s.armed[timer]
  }

  predicate NewTimersAreIts(s: State, t: State, id: nat)
    requires id in t.objects
  {
    forall timer :: timer in t.armed ==>
      || (timer in s.armed && t.armed[timer] == s.armed[timer] && s.armed[timer].session != id)
      || (t.armed[timer].session == id && timer in TimersOf(t.objects[id]) && timer < t.nextTimer && t.armed[timer].due >= t.now)
  }

  lemma SessionsAfter(s: State, t: State, policy: Policy, id: nat)
    requires SessionsKept(s, policy) && OthersSame(s, t, id) && OtherTimersStay(s, t, id)
    requires |t.sessions| <= policy.maxSessions && !t.objects[id].closing && TimersKept(t, policy, id)
    ensures SessionsKept(t, policy)
  {
    hide TimersKept, TimersOf;
    forall j | j in s.sessions && j != id
      ensures TimersKept(t, policy, j)
    {
      ArmedForItself(s, policy, j);
      TimersStay(s, t, policy, j);
    }
  }

  lemma ClockAfter(s: State, t: State, id: nat)
    requires ClockKept(s) && OthersSame(s, t, id) && NewTimersAreIts(s, t, id)
    ensures ClockKept(t)
  {
    hide TimersOf;
    forall timer | timer in t.armed
      ensures timer < t.nextTimer && t.armed[timer].due >= t.now && t.armed[timer].session in t.sessions
      ensures t.armed[timer].session in t.objects && timer in TimersOf(t.objects[t.armed[timer].session])
    {
    }
  }

  lemma OpenIsGood(s: State, policy: Policy, on: bool)
    requires Good(s, policy)
    ensures Good(OpenSession(s, policy, on), policy)
  {
    hide SessionsKept, ClockKept, ShellsKept;
    var t, id := OpenSession(s, policy, on), s.nextSession;
    if t != s {
      NewIsNew(s, policy);
      OpenKeepsTimers(s, policy, on);
      SessionsAfter(s, t, policy, id);
      ClockAfter(s, t, id);
      OpenKeepsShells(s, policy, on);
    }
  }

  lemma NewIsNew(s: State, policy: Policy)
    requires SessionsKept(s, policy) && ClockKept(s)
    ensures s.nextSession !in s.objects && s.nextSession !in s.sessions
    ensures forall timer :: timer in s.armed ==> timer < s.nextTimer && s.armed[timer].session != s.nextSession
  {
    hide TimersKept, TimersOf;
  }

  lemma OpenKeepsTimers(s: State, policy: Policy, on: bool)
    requires on && |s.sessions| < policy.maxSessions && s.nextSession !in s.sessions
    requires forall timer :: timer in s.armed ==> timer < s.nextTimer && s.armed[timer].session != s.nextSession
    ensures var t := OpenSession(s, policy, on);
      s.nextSession in t.objects && TimersKept(t, policy, s.nextSession)
      && OtherTimersStay(s, t, s.nextSession) && NewTimersAreIts(s, t, s.nextSession)
  {
  }

  lemma OpenKeepsShells(s: State, policy: Policy, on: bool)
    requires ShellsKept(s) && s.nextSession !in s.objects
    ensures ShellsKept(OpenSession(s, policy, on))
  {
  }

  lemma TouchIsGood(s: State, policy: Policy, id: nat)
    requires Good(s, policy) && id in s.sessions && s.objects[id].shell.Some?
    ensures Good(Touch(s, policy, id), policy)
  {
    hide ClockKept, ShellsKept, TimersKept, OtherTimersStay, NewTimersAreIts;
    var t := Touch(s, policy, id);
    TouchKeepsTimers(s, policy, id);
    SessionsAfter(s, t, policy, id);
    ClockAfter(s, t, id);
    SameShells(s, t, id);
  }

  lemma TouchKeepsTimers(s: State, policy: Policy, id: nat)
    requires id in s.objects && TimersKept(s, policy, id) && s.objects[id].shell.Some? && ClockKept(s)
    ensures var t := Touch(s, policy, id);
      TimersKept(t, policy, id) && OtherTimersStay(s, t, id) && NewTimersAreIts(s, t, id)
  {
  }

  lemma SameShells(s: State, t: State, id: nat)
    requires ShellsKept(s) && id in s.objects && OthersSame(s, t, id) && t.objects[id].shell == s.objects[id].shell
    requires t.sessions == s.sessions && t.shells == s.shells && t.live == s.live && t.nextShell == s.nextShell
    ensures ShellsKept(t)
  {
  }

  lemma AttachIsGood(s: State, policy: Policy, id: nat, library: bool, spawns: bool, sent: bool)
    requires Good(s, policy)
    ensures Good(AttachShell(s, policy, id, library, spawns, sent), policy)
  {
    hide SessionsKept, ClockKept, ShellsKept, TimersKept, Bind, TimersOf, OthersSame;
    var t := AttachShell(s, policy, id, library, spawns, sent);
    if t != s {
      KeptOne(s, policy, id);
      if spawns {
        BindKeepsTimers(s, policy, id, sent);
        SessionsAfter(s, t, policy, id);
        ClockAfter(s, t, id);
        BindKeepsShells(s, policy, id, sent);
      } else {
        OnlyReserved(s, policy, id);
        OthersStay(s, t, policy, id);
        ForgottenKeepsShells(s, t, id);
      }
    }
  }

  lemma KeptOne(s: State, policy: Policy, id: nat)
    requires SessionsKept(s, policy) && id in s.sessions
    ensures id in s.objects && !s.objects[id].closing && TimersKept(s, policy, id) && id < s.nextSession
    ensures |s.sessions| <= policy.maxSessions
  {
  }

  lemma OnlyReserved(s: State, policy: Policy, id: nat)
    requires id in s.objects && TimersKept(s, policy, id) && s.objects[id].shell.None?
    ensures TimersOf(s.objects[id]) == Handle(s.objects[id].reservation)
  {
  }

  function Bound(s: State, policy: Policy, id: nat, sent: bool): State
    requires id in s.objects
  {
    var o := s.objects[id].(reservation := None);
    Bind(s.(armed := s.armed - Handle(s.objects[id].reservation), objects := s.objects[id := o]), policy, id, sent)
  }

  lemma BoundIs(s: State, policy: Policy, id: nat, sent: bool)
    requires id in s.objects && TimersKept(s, policy, id) && s.objects[id].shell.None?
    ensures var t, o, n := Bound(s, policy, id, sent), s.objects[id], s.nextTimer;
      var rest := s.armed - Handle(o.reservation);
      var bound := o.(reservation := None, shell := Some(s.nextShell), openedAt := s.now, touched := s.now, greeted := sent);
      && t.objects == s.objects[id := if sent then bound.(deadline := Some(n), idle := Some(n + 1)) else bound]
      && t.armed == (if sent then rest[n := Timer(id, s.now + policy.maxMs)][n + 1 := Timer(id, s.now + policy.idleMs)] else rest)
      && t.nextTimer == (if sent then n + 2 else n)
      && t.now == s.now && t.sessions == s.sessions && t.nextSession == s.nextSession
  {
    var o := s.objects[id];
    var rest := s.armed - Handle(o.reservation);
    if sent {
      var timed := rest[s.nextTimer := Timer(id, s.now + policy.maxMs)];
      assert timed - {} == timed;
    }
  }

  lemma BindKeepsTimers(s: State, policy: Policy, id: nat, sent: bool)
    requires SessionsKept(s, policy) && ClockKept(s) && id in s.sessions && s.objects[id].shell.None?
    ensures var t := Bound(s, policy, id, sent);
      OthersSame(s, t, id) && t.sessions == s.sessions && !t.objects[id].closing
      && TimersKept(t, policy, id) && OtherTimersStay(s, t, id) && NewTimersAreIts(s, t, id)
  {
    hide Bound, SessionsKept, ClockKept;
    KeptOne(s, policy, id);
    BoundIs(s, policy, id, sent);
    ReservedOnly(s, policy, id);
  }

  lemma ReservedOnly(s: State, policy: Policy, id: nat)
    requires id in s.objects && TimersKept(s, policy, id) && ClockKept(s) && s.objects[id].shell.None?
    ensures s.objects[id].idle.None? && s.objects[id].deadline.None? && s.objects[id].reservation.Some?
    ensures forall timer :: timer in s.armed ==>
      timer < s.nextTimer && (s.armed[timer].session == id <==> timer == s.objects[id].reservation.value)
  {
  }

  lemma BindKeepsShells(s: State, policy: Policy, id: nat, sent: bool)
    requires ShellsKept(s) && id in s.sessions && id in s.objects && s.objects[id].shell.None?
    ensures ShellsKept(Bound(s, policy, id, sent))
  {
  }

  lemma ForgottenKeepsShells(s: State, t: State, id: nat)
    requires ShellsKept(s) && id in s.objects && s.objects[id].shell.None?
    requires t.shells == s.shells && t.live == s.live && t.nextShell == s.nextShell && t.sessions == s.sessions - {id}
    requires t.objects == s.objects[id := s.objects[id].(reservation := None)]
    ensures ShellsKept(t)
  {
  }

  lemma ExitIsGood(s: State, policy: Policy, shell: nat, told: bool)
    requires Good(s, policy)
    ensures Good(ExitShell(s, shell, told), policy)
  {
    hide SessionsKept, ShellsKept, TimersOf, End;
    if shell in s.live && shell in s.shells {
      var t := s.(live := s.live - {shell});
      SameSessions(s, t, policy);
      OneShellEach(s, shell);
      EndIsGood(t, policy, s.shells[shell], false);
    }
  }

  lemma OneShellEach(s: State, shell: nat)
    requires ShellsKept(s) && shell in s.live
    ensures s.shells[shell] in s.sessions
    ensures forall p :: p in s.live && p != shell ==> s.shells[p] != s.shells[shell]
    ensures ShellsKept(s.(live := s.live - {shell}))
  {
  }

  lemma SameSessions(s: State, t: State, policy: Policy)
    requires SessionsKept(s, policy) && ClockKept(s)
    requires t.objects == s.objects && t.sessions == s.sessions && t.armed == s.armed && t.nextSession == s.nextSession
    requires t.nextTimer == s.nextTimer && forall timer :: timer in s.armed ==> s.armed[timer].due >= t.now
    ensures SessionsKept(t, policy) && ClockKept(t)
  {
    forall id | id in s.sessions
      ensures TimersKept(t, policy, id)
    {
      assert TimersKept(s, policy, id);
    }
    hide TimersKept, TimersOf;
  }

  lemma FireIsGood(s: State, policy: Policy, timer: nat)
    requires Good(s, policy)
    ensures Good(FireTimer(s, timer), policy)
  {
    if timer in s.armed && s.armed[timer].due <= s.now {
      FiredEnds(s, policy, timer);
      EndIsGood(s, policy, s.armed[timer].session, true);
      hide SessionsKept, ClockKept, ShellsKept;
    }
  }

  lemma FiredEnds(s: State, policy: Policy, timer: nat)
    requires SessionsKept(s, policy) && ClockKept(s) && timer in s.armed && s.armed[timer].due <= s.now
    ensures FireTimer(s, timer) == End(s, s.armed[timer].session, true)
    ensures s.armed[timer].session in s.sessions
  {
    KeptOne(s, policy, s.armed[timer].session);
    var o := s.objects[s.armed[timer].session];
    assert s.armed - {timer} - TimersOf(o) == s.armed - TimersOf(o);
  }

  lemma StepIsGood(s: State, policy: Policy, e: Event)
    requires Good(s, policy)
    ensures Good(Step(s, policy, e), policy)
  {
    match e
    case Open(on) => OpenIsGood(s, policy, on);
    case Attach(id, library, spawns, sent) => AttachIsGood(s, policy, id, library, spawns, sent);
    case Use(id, written) => if IsLive(s, id) { TouchIsGood(s, policy, id); }
    case Close(id) => if id in s.sessions { EndIsGood(s, policy, id, true); }
    case CloseAll(order) => EndAllIsGood(s, policy, order);
    case Exit(shell, told) => ExitIsGood(s, policy, shell, told);
    case Fire(timer) => FireIsGood(s, policy, timer);
    case Tick(to) => TickIsGood(s, policy, to);
  }

  lemma TickIsGood(s: State, policy: Policy, to: nat)
    requires Good(s, policy)
    ensures Good(TickTo(s, to), policy)
  {
    SameSessions(s, TickTo(s, to), policy);
  }

  lemma {:induction false} AlwaysGood(policy: Policy, events: seq<Event>)
    ensures Good(After(policy, events), policy)
    decreases |events|
  {
    hide Good, Step;
    if events == [] {
      StartedIsGood(policy);
    } else {
      AlwaysGood(policy, events[..|events| - 1]);
      StepIsGood(After(policy, events[..|events| - 1]), policy, events[|events| - 1]);
    }
  }

  lemma StartedIsGood(policy: Policy)
    ensures Good(STARTED, policy)
  {
  }

  /* ── A session's history, over the events ────────────────────────── */

  predicate Opens(s: State, policy: Policy, e: Event, id: nat) {
    e.Open? && e.on && |s.sessions| < policy.maxSessions && id == s.nextSession
  }

  predicate Attaches(s: State, e: Event, id: nat) { e.Attach? && e.id == id && CanAttach(s, id, e.library) && e.spawns }

  predicate Uses(s: State, e: Event, id: nat) { e.Use? && e.id == id && IsLive(s, id) && e.written }

  /** When the shell was started, and whether the stream took its first frame. */
  datatype Stream = Stream(at: nat, sent: bool)

  /** When the session was opened, what became of its stream, when it was last used, the attach included, and whether anything was
      typed into it or its size changed. */
  datatype History = History(reserved: Option<nat>, stream: Option<Stream>, lastUse: Option<nat>, used: bool)

  function Next(h: History, s: State, policy: Policy, e: Event, id: nat): History {
    if Opens(s, policy, e, id) then History(Some(s.now), None, None, false)
    else if Attaches(s, e, id) then h.(stream := Some(Stream(s.now, e.sent)), lastUse := Some(s.now))
    else if Uses(s, e, id) then h.(lastUse := Some(s.now), used := true)
    else h
  }

  function HistoryOf(policy: Policy, events: seq<Event>, id: nat): History
    decreases |events|
  {
    if events == [] then History(None, None, None, false)
    else
      var before := events[..|events| - 1];
      Next(HistoryOf(policy, before, id), After(policy, before), policy, events[|events| - 1], id)
  }

  predicate WasSent(h: History) { h.stream.Some? && h.stream.value.sent }

  /** What a session's fields say of its history. */
  predicate Remembers(s: State, id: nat, h: History) {
    if id in s.objects then
      var o := s.objects[id];
      && h.reserved.Some? && (o.shell.Some? <==> h.stream.Some?) && (o.greeted <==> WasSent(h))
      && (o.idle.Some? <==> WasSent(h) || h.used) && (h.used ==> h.stream.Some?) && (h.lastUse.Some? <==> h.stream.Some?)
      && o.openedAt == (if h.stream.Some? then h.stream.value.at else h.reserved.value)
      && (h.lastUse.Some? ==> o.touched == h.lastUse.value)
    else h == History(None, None, None, false)
  }

  lemma EndRemembers(s: State, ended: nat, killShell: bool, id: nat, h: History)
    requires Remembers(s, id, h)
    ensures Remembers(End(s, ended, killShell), id, h)
  {
  }

  lemma {:induction false} EndAllRemembers(s: State, order: seq<nat>, id: nat, h: History)
    requires Remembers(s, id, h)
    ensures Remembers(EndAll(s, order), id, h)
    decreases |order|
  {
    hide Remembers, End;
    if order != [] {
      EndRemembers(s, order[0], true, id, h);
      EndAllRemembers(if order[0] in s.sessions then End(s, order[0], true) else s, order[1..], id, h);
    }
  }

  lemma OpenRemembers(s: State, policy: Policy, e: Event, id: nat, h: History)
    requires e.Open? && Remembers(s, id, h) && s.nextSession !in s.objects
    ensures Remembers(Step(s, policy, e), id, Next(h, s, policy, e, id))
  {
  }

  lemma AttachRemembers(s: State, policy: Policy, e: Event, id: nat, h: History)
    requires e.Attach? && Remembers(s, id, h)
    ensures Remembers(Step(s, policy, e), id, Next(h, s, policy, e, id))
  {
  }

  lemma UseRemembers(s: State, policy: Policy, e: Event, id: nat, h: History)
    requires e.Use? && Remembers(s, id, h)
    ensures Remembers(Step(s, policy, e), id, Next(h, s, policy, e, id))
  {
  }

  lemma ExitRemembers(s: State, shell: nat, told: bool, id: nat, h: History)
    requires Remembers(s, id, h)
    ensures Remembers(ExitShell(s, shell, told), id, h)
  {
    hide End;
    if shell in s.live && shell in s.shells {
      EndRemembers(s.(live := s.live - {shell}), s.shells[shell], false, id, h);
    }
  }

  lemma FireRemembers(s: State, timer: nat, id: nat, h: History)
    requires Remembers(s, id, h)
    ensures Remembers(FireTimer(s, timer), id, h)
  {
    hide End;
    if timer in s.armed {
      EndRemembers(s.(armed := s.armed - {timer}), s.armed[timer].session, true, id, h);
    }
  }

  lemma TickRemembers(s: State, to: nat, id: nat, h: History)
    requires Remembers(s, id, h)
    ensures Remembers(TickTo(s, to), id, h)
  {
  }

  lemma StepRemembers(s: State, policy: Policy, e: Event, id: nat, h: History)
    requires Remembers(s, id, h) && s.nextSession !in s.objects
    ensures Remembers(Step(s, policy, e), id, Next(h, s, policy, e, id))
  {
    hide Remembers, OpenSession, AttachShell, UseSession, End, EndAll, ExitShell, FireTimer;
    match e
    case Open(_) => OpenRemembers(s, policy, e, id, h);
    case Attach(_, _, _, _) => AttachRemembers(s, policy, e, id, h);
    case Use(_, _) => UseRemembers(s, policy, e, id, h);
    case Close(ended) => EndRemembers(s, ended, true, id, h);
    case CloseAll(order) => EndAllRemembers(s, order, id, h);
    case Exit(shell, told) => ExitRemembers(s, shell, told, id, h);
    case Fire(timer) => FireRemembers(s, timer, id, h);
    case Tick(to) => TickRemembers(s, to, id, h);
  }

  lemma {:induction false} HistoryHolds(policy: Policy, events: seq<Event>, id: nat)
    ensures Remembers(After(policy, events), id, HistoryOf(policy, events, id))
    decreases |events|
  {
    hide Remembers, Step, Next, Good;
    if events == [] {
      NothingToRemember(id);
    } else {
      var before := events[..|events| - 1];
      HistoryHolds(policy, before, id);
      AlwaysGood(policy, before);
      NextIsNew(After(policy, before), policy);
      StepRemembers(After(policy, before), policy, events[|events| - 1], id, HistoryOf(policy, before, id));
    }
  }

  lemma NothingToRemember(id: nat)
    ensures Remembers(STARTED, id, History(None, None, None, false))
  {
  }

  lemma NextIsNew(s: State, policy: Policy)
    requires Good(s, policy)
    ensures s.nextSession !in s.objects
  {
    NewIsNew(s, policy);
  }

  lemma AfterOneMore(policy: Policy, events: seq<Event>, e: Event)
    ensures After(policy, events + [e]) == Step(After(policy, events), policy, e)
  {
    assert (events + [e])[..|events|] == events;
  }

  lemma HistoryOneMore(policy: Policy, events: seq<Event>, e: Event, id: nat)
    ensures HistoryOf(policy, events + [e], id) == Next(HistoryOf(policy, events, id), After(policy, events), policy, e, id)
  {
    hide After, Next;
    assert (events + [e])[..|events|] == events;
  }

  /* ── How much, and for how long ──────────────────────────────────── */

  /** When a session's timers are due, by its history: the reservation's, until it is attached; then the longest it may last and
      the longest it may idle since it was last used; and where the stream refused its first frame, only the latter, once used. */
  function DuesOf(policy: Policy, h: History): set<nat> {
    if h.stream.None? || h.lastUse.None? then (if h.reserved.Some? then {h.reserved.value + policy.reservationMs} else {})
    else
      (if h.stream.value.sent then {h.stream.value.at + policy.maxMs} else {})
      + (if h.stream.value.sent || h.used then {h.lastUse.value + policy.idleMs} else {})
  }

  /** A session in the map has a timer for each of those times, and for no other. */
  lemma ItsTimers(policy: Policy, events: seq<Event>, id: nat)
    requires id in After(policy, events).sessions
    ensures forall due: nat ::
      (exists timer :: timer in After(policy, events).armed && After(policy, events).armed[timer] == Timer(id, due))
      <==> due in DuesOf(policy, HistoryOf(policy, events, id))
  {
    hide After, HistoryOf;
    AlwaysGood(policy, events);
    HistoryHolds(policy, events, id);
    forall due: nat
      ensures (exists timer :: timer in After(policy, events).armed && After(policy, events).armed[timer] == Timer(id, due))
         <==> due in DuesOf(policy, HistoryOf(policy, events, id))
    {
      OneTimer(After(policy, events), policy, id, HistoryOf(policy, events, id), due);
    }
  }

  lemma OneTimer(s: State, policy: Policy, id: nat, h: History, due: nat)
    requires SessionsKept(s, policy) && ClockKept(s) && id in s.sessions && Remembers(s, id, h)
    ensures (exists timer :: timer in s.armed && s.armed[timer] == Timer(id, due)) <==> due in DuesOf(policy, h)
  {
    KeptOne(s, policy, id);
    hide SessionsKept;
    var o := s.objects[id];
    if due in DuesOf(policy, h) {
      var timer := if o.shell.None? then o.reservation.value
        else if o.idle.Some? && due == o.touched + policy.idleMs then o.idle.value else o.deadline.value;
      assert s.armed[timer] == Timer(id, due);
    }
  }

  /** Typing into a session, or changing its size, puts its idle end off: it has a timer for so long after now, and besides that
      only the one for the longest it may last. */
  lemma UsePutsItOff(policy: Policy, events: seq<Event>, id: nat)
    requires Uses(After(policy, events), Use(id, true), id)
    ensures var s, h := After(policy, events), HistoryOf(policy, events, id);
      var t := After(policy, events + [Use(id, true)]);
      && id in t.sessions && h.stream.Some?
      && (exists timer :: timer in t.armed && t.armed[timer] == Timer(id, s.now + policy.idleMs))
      && forall timer :: timer in t.armed && t.armed[timer].session == id ==>
           t.armed[timer].due == s.now + policy.idleMs || (WasSent(h) && t.armed[timer].due == h.stream.value.at + policy.maxMs)
  {
    hide After, HistoryOf;
    var s, now := After(policy, events), After(policy, events).now + policy.idleMs;
    var longer := events + [Use(id, true)];
    AfterOneMore(policy, events, Use(id, true));
    HistoryOneMore(policy, events, Use(id, true), id);
    HistoryHolds(policy, events, id);
    ItsTimers(policy, longer, id);
    var t := After(policy, longer);
    assert now in DuesOf(policy, HistoryOf(policy, longer, id));
    forall timer | timer in t.armed && t.armed[timer].session == id
      ensures t.armed[timer].due in DuesOf(policy, HistoryOf(policy, longer, id))
    {
      assert t.armed[timer] == Timer(id, t.armed[timer].due);
    }
  }

  /** Never more sessions than the limit, and each is over by the time its timers say. */
  lemma SlotsAreBounded(policy: Policy, events: seq<Event>, id: nat)
    requires id in After(policy, events).sessions
    ensures var s, h := After(policy, events), HistoryOf(policy, events, id);
      && |s.sessions| <= policy.maxSessions && h.reserved.Some?
      && (h.stream.None? ==> s.now <= h.reserved.value + policy.reservationMs)
      && (WasSent(h) ==> s.now <= h.stream.value.at + policy.maxMs)
      && (WasSent(h) || h.used ==> h.lastUse.Some? && s.now <= h.lastUse.value + policy.idleMs)
  {
    hide After, HistoryOf;
    AlwaysGood(policy, events);
    HistoryHolds(policy, events, id);
    InTime(After(policy, events), policy, id, HistoryOf(policy, events, id));
  }

  lemma InTime(s: State, policy: Policy, id: nat, h: History)
    requires SessionsKept(s, policy) && ClockKept(s) && id in s.sessions && Remembers(s, id, h)
    ensures |s.sessions| <= policy.maxSessions && h.reserved.Some?
    ensures h.stream.None? ==> s.now <= h.reserved.value + policy.reservationMs
    ensures WasSent(h) ==> s.now <= h.stream.value.at + policy.maxMs
    ensures WasSent(h) || h.used ==> h.lastUse.Some? && s.now <= h.lastUse.value + policy.idleMs
  {
    KeptOne(s, policy, id);
    hide SessionsKept;
    var o := s.objects[id];
    if o.shell.None? { assert s.armed[o.reservation.value].due >= s.now; }
    if o.greeted { assert s.armed[o.deadline.value].due >= s.now; }
    if o.idle.Some? { assert s.armed[o.idle.value].due >= s.now; }
  }

  /** What takes a session out of the map: a close; its shell's own exit, when the stream that took the first frame could be told;
      a shell that does not start; or one of its timers, and that at the very time it is due. */
  predicate Ends(s: State, policy: Policy, e: Event, id: nat, h: History) {
    match e
    case Open(_) => false
    case Attach(which, library, spawns, _) => which == id && CanAttach(s, id, library) && !spawns
    case Use(_, _) => false
    case Close(which) => which == id
    case CloseAll(order) => id in order
    case Exit(shell, told) => shell in s.live && shell in s.shells && s.shells[shell] == id && WasSent(h) && told
    case Fire(timer) => timer in s.armed && s.armed[timer] == Timer(id, s.now) && s.now in DuesOf(policy, h)
    case Tick(_) => false
  }

  /** A session stays until one of these, and no longer. */
  lemma ItStaysUntil(policy: Policy, events: seq<Event>, id: nat, e: Event)
    requires id in After(policy, events).sessions
    ensures id !in After(policy, events + [e]).sessions <==> Ends(After(policy, events), policy, e, id, HistoryOf(policy, events, id))
  {
    hide After, HistoryOf, Ends, Remembers;
    AfterOneMore(policy, events, e);
    AlwaysGood(policy, events);
    HistoryHolds(policy, events, id);
    EndsIff(After(policy, events), policy, e, id, HistoryOf(policy, events, id));
  }

  lemma EndsIff(s: State, policy: Policy, e: Event, id: nat, h: History)
    requires Good(s, policy) && id in s.sessions && Remembers(s, id, h)
    ensures id !in Step(s, policy, e).sessions <==> Ends(s, policy, e, id, h)
  {
    hide TimersKept, DuesOf, EndAll;
    KeptOne(s, policy, id);
    match e
    case CloseAll(order) => EndAllIsGood(s, policy, order);
    case Exit(shell, told) =>
    case Fire(timer) =>
      OneTimer(s, policy, id, h, s.now);
      if timer in s.armed && s.armed[timer].due <= s.now { FiredEnds(s, policy, timer); }
    case _ =>
  }

  /** A session has at most one shell, ever; and a shell that lives is one of a session in the map. */
  lemma OneShellToASession(policy: Policy, events: seq<Event>, shell: nat, other: nat)
    requires shell in After(policy, events).shells && other in After(policy, events).shells
    ensures var s := After(policy, events);
      && (s.shells[shell] == s.shells[other] ==> shell == other)
      && (shell in s.live ==> s.shells[shell] in s.sessions)
  {
    hide After;
    AlwaysGood(policy, events);
  }

  /** Its shell was started, its stream refused the first frame, and nothing was done with it since. */
  predicate IsForgotten(h: History) { h.stream.Some? && !h.stream.value.sent && !h.used }

  /** Every timer armed is one of a session in the map; and a session in the map is without one exactly when its stream refused
      the first frame and nobody used it since. */
  lemma TimersAreTheSessions(policy: Policy, events: seq<Event>)
    ensures var s := After(policy, events);
      && (forall timer :: timer in s.armed ==> s.armed[timer].session in s.sessions)
      && forall id :: id in s.sessions ==>
           ((exists timer :: timer in s.armed && s.armed[timer].session == id) <==> !IsForgotten(HistoryOf(policy, events, id)))
  {
    hide After, HistoryOf;
    AlwaysGood(policy, events);
    var s := After(policy, events);
    forall id | id in s.sessions
      ensures (exists timer :: timer in s.armed && s.armed[timer].session == id) <==> !IsForgotten(HistoryOf(policy, events, id))
    {
      OneHasATimer(s, policy, id);
      HistoryHolds(policy, events, id);
      KeptOne(s, policy, id);
    }
  }

  /** Such a session stays: no timer, no shell's exit and no passing of time ends it, only a close, and only use gives it a timer. */
  lemma OnlyACloseEndsIt(policy: Policy, events: seq<Event>, id: nat, e: Event)
    requires id in After(policy, events).sessions && IsForgotten(HistoryOf(policy, events, id))
    requires !e.Close? && !e.CloseAll?
    ensures id in After(policy, events + [e]).sessions
    ensures IsForgotten(HistoryOf(policy, events + [e], id)) <==> !Uses(After(policy, events), e, id)
  {
    hide After, HistoryOf, Uses, Good;
    ItStaysUntil(policy, events, id, e);
    HistoryOneMore(policy, events, e, id);
    AlwaysGood(policy, events);
    HistoryHolds(policy, events, id);
    NoNewHistory(After(policy, events), policy, e, id, HistoryOf(policy, events, id));
  }

  lemma NoNewHistory(s: State, policy: Policy, e: Event, id: nat, h: History)
    requires Good(s, policy) && id in s.sessions && Remembers(s, id, h) && h.stream.Some?
    ensures !Opens(s, policy, e, id) && !Attaches(s, e, id)
    ensures e.Attach? && e.id == id ==> !CanAttach(s, id, e.library)
  {
    KeptOne(s, policy, id);
  }

  /** A session can come to that, and any time may pass over it. */
  lemma ARefusedStreamIsForgotten(policy: Policy, to: nat)
    requires policy.maxSessions >= 1
    ensures var events := [Open(true), Attach(0, true, true, false), Tick(to)];
      && IsForgotten(HistoryOf(policy, events, 0)) && 0 in After(policy, events).sessions && After(policy, events).now == to
      && After(policy, events).armed == map[]
  {
    hide After, HistoryOf;
    var one, two := [Open(true)], [Open(true), Attach(0, true, true, false)];
    var none: seq<Event> := [];
    NothingYet(policy);
    AfterOneMore(policy, none, Open(true));
    HistoryOneMore(policy, none, Open(true), 0);
    assert none + [Open(true)] == one;
    var reserved := Session(0, None, Some(0), None, None, false, 0, false);
    assert After(policy, one) == State(0, map[0 := reserved], {0}, map[0 := Timer(0, policy.reservationMs)], map[], {}, 1, 1, 0);
    AfterOneMore(policy, one, Attach(0, true, true, false));
    HistoryOneMore(policy, one, Attach(0, true, true, false), 0);
    assert one + [Attach(0, true, true, false)] == two;
    assert After(policy, two).armed == map[];
    AfterOneMore(policy, two, Tick(to));
    HistoryOneMore(policy, two, Tick(to), 0);
    assert two + [Tick(to)] == [Open(true), Attach(0, true, true, false), Tick(to)];
  }

  lemma NothingYet(policy: Policy)
    ensures After(policy, []) == STARTED
  {
  }

  lemma OneHasATimer(s: State, policy: Policy, id: nat)
    requires SessionsKept(s, policy) && ClockKept(s) && id in s.sessions
    ensures (exists timer :: timer in s.armed && s.armed[timer].session == id)
       <==> s.objects[id].shell.None? || s.objects[id].greeted || s.objects[id].idle.Some?
  {
    KeptOne(s, policy, id);
    hide SessionsKept;
    var o := s.objects[id];
    if o.shell.None? {
      assert s.armed[o.reservation.value].session == id;
    } else if o.idle.Some? {
      assert s.armed[o.idle.value].session == id;
    }
  }

  /** Nothing outlives the agent's stop: no session, no shell, no timer. */
  lemma NothingSurvives(policy: Policy, events: seq<Event>, order: seq<nat>)
    requires forall id :: id in After(policy, events).sessions ==> id in order
    ensures var s := After(policy, events + [CloseAll(order)]);
      s.sessions == {} && s.live == {} && s.armed == map[]
  {
    hide After, EndAll;
    assert (events + [CloseAll(order)])[..|events|] == events;
    AfterOneMore(policy, events, CloseAll(order));
    AlwaysGood(policy, events);
    EndAllIsGood(After(policy, events), policy, order);
    NoSessionsLeft(EndAll(After(policy, events), order), policy);
  }

  lemma NoSessionsLeft(s: State, policy: Policy)
    requires Good(s, policy) && s.sessions == {}
    ensures s.live == {} && s.armed == map[]
  {
    assert forall timer :: timer !in s.armed;
    assert s.armed.Keys == {};
  }
}
