/** Changing the agent's token in two steps, with an answer lost or the agent killed between any two writes. */
module Rotation {
  import opened Bytes

  /** What the agent holds in memory, and what its settings file holds: the tokens and everything else. */
  datatype Config = Config(token: string, previous: Option<string>)

  datatype AgentFile = AgentFile(token: string, previous: Option<string>, rest: string)

  const SHORTEST := 32
  const LONGEST := 256

  /** JavaScript's \s. */
  predicate IsSpace(c: char) {
    || c in [' ', '\t', '\n', '\r', '\U{000B}', '\U{000C}', '\U{00A0}', '\U{1680}']
    || c in ['\U{2028}', '\U{2029}', '\U{202F}', '\U{205F}', '\U{3000}', '\U{FEFF}']
    || '\U{2000}' <= c <= '\U{200A}'
  }

  predicate IsToken(t: string) { SHORTEST <= |t| <= LONGEST && forall i :: 0 <= i < |t| ==> !IsSpace(t[i]) }

  predicate Accepts(c: Config, presented: string) { presented == c.token || c.previous == Some(presented) }

  /** What a start reads: a previous token that is too short is not one. */
  function Load(f: AgentFile): Config {
    Config(f.token, if f.previous.Some? && |f.previous.value| >= SHORTEST then f.previous else None)
  }

  /* ── The two calls ───────────────────────────────────────────────── */

  datatype Refused = NotAToken | FromEnvironment | AlreadyInUse | FileGone | NotWritten | NotTheNewToken

  class Agent {
    var token: string
    var previousToken: Option<string>
    var file: Option<AgentFile>
    const fromEnvironment: bool

    function Held(): Config
      reads this
    {
      Config(token, previousToken)
    }

    constructor (f: AgentFile)
      ensures Held() == Load(f) && file == Some(f) && !fromEnvironment
    {
      token, file, fromEnvironment := f.token, Some(f), false;
      previousToken := Load(f).previous;
    }

    /** Saved before it is accepted: whatever is refused has changed nothing. */
    method BeginRotation(next: string, writes: bool) returns (r: Result<(), Refused>)
      modifies this
      ensures r.Ok? <==> IsToken(next) && !fromEnvironment && next != old(token) && old(file).Some? && writes
      ensures |next| < 32 || |next| > 256 || ' ' in next || '\t' in next || '\n' in next ==> r == Err(NotAToken)
      ensures 32 <= |next| <= 256 && (forall c :: c in next ==> '!' <= c <= '~') ==> r != Err(NotAToken)
      ensures r.Err? ==> Held() == old(Held()) && file == old(file)
      ensures r.Ok? ==> Held() == Config(next, Some(old(token)))
      ensures r.Ok? ==> file == Some(AgentFile(next, Some(old(token)), old(file).value.rest))
      ensures r.Ok? ==> BeginsAs(old(Held()), old(file).value, next, Held(), file.value)
    {
      WhatATokenIs(next);
      if !IsToken(next) { return Err(NotAToken); }
      if fromEnvironment { return Err(FromEnvironment); }
      if next == token { return Err(AlreadyInUse); }
      if file.None? { return Err(FileGone); }
      var previous := token;
      if !writes { return Err(NotWritten); }
      file := Some(file.value.(token := next, previous := Some(previous)));
      previousToken := Some(previous);
      token := next;
      CallsAreSteps(old(Held()), old(file).value, next);
      return Ok(());
    }

    /** Only the new token retires the old. */
    method CommitRotation(presented: Option<string>, writes: bool) returns (r: Result<bool, Refused>)
      modifies this
      ensures old(previousToken).None? ==> r == Ok(false)
      ensures old(previousToken).Some? ==> (r == Ok(true) <==> presented == Some(old(token)) && (old(file).None? || writes))
      ensures old(previousToken).Some? && r != Ok(true) ==> r.Err?
      ensures r != Ok(true) ==> Held() == old(Held()) && file == old(file)
      ensures r == Ok(true) ==> Held() == Config(old(token), None)
      ensures r == Ok(true) && old(file).Some? ==> file == Some(old(file).value.(previous := None))
      ensures old(file).None? ==> file == None
      ensures r == Ok(true) && old(file).Some? ==> CommitsAs(old(Held()), old(file).value, Held(), file.value)
    {
      if previousToken.None? { return Ok(false); }
      if presented != Some(token) { return Err(NotTheNewToken); }
      if file.Some? {
        if !writes { return Err(NotWritten); }
        file := Some(file.value.(previous := None));
      }
      previousToken := None;
      if old(file).Some? { CommitIsSteps(old(Held()), old(file).value); }
      return Ok(true);
    }
  }

  lemma WhatATokenIs(t: string)
    ensures IsToken(t) ==> 32 <= |t| <= 256 && ' ' !in t && '\t' !in t && '\n' !in t
    ensures 32 <= |t| <= 256 && (forall c :: c in t ==> '!' <= c <= '~') ==> IsToken(t)
  {
    if forall c :: c in t ==> '!' <= c <= '~' {
      forall i | 0 <= i < |t| ensures !IsSpace(t[i]) { assert t[i] in t; }
    }
  }

  /** After a restart the file's token is let in, and the one before it when it is long enough to be a token. */
  lemma LetInAfterARestart(f: AgentFile, presented: string)
    ensures Accepts(Load(f), presented) <==>
      presented == f.token || (f.previous == Some(presented) && |presented| >= 32)
  {
  }

  /* ── The agent, its file and the panel, over every run ───────────── */

  /** A call that has written the file and not yet changed what is in memory. */
  datatype Pending = Idle | Beginning(next: string) | Committing

  /** `panel` is the token the panel presents; `lost` counts the begins in a row that the file took and the panel never heard of;
      `seen` every token there was. */
  datatype Node = Node(memory: Config, file: AgentFile, pending: Pending, panel: string, lost: nat, seen: set<string>)

  datatype Event =
    | WriteBegin(next: string)
    | AnswerBegin(recorded: bool)
    | WriteCommit
    | AnswerCommit
    | Restart

  function Joined(token: string, rest: string): Node {
    Node(Config(token, None), AgentFile(token, None, rest), Idle, token, 0, {token})
  }

  /** The panel presents its token and, to begin, a token it has just made. A call runs to its end or to the agent's. */
  predicate Enabled(n: Node, e: Event) {
    match e
    case WriteBegin(next) => n.pending.Idle? && Accepts(n.memory, n.panel) && IsToken(next) && next !in n.seen
    case AnswerBegin(_) => n.pending.Beginning?
    case WriteCommit => n.pending.Idle? && n.memory.previous.Some? && n.panel == n.memory.token
    case AnswerCommit => n.pending.Committing?
    case Restart => true
  }

  function Step(n: Node, e: Event): Node {
    if !Enabled(n, e) then n
    else match e
      case WriteBegin(next) =>
        n.(file := n.file.(token := next, previous := Some(n.memory.token)), pending := Beginning(next), seen := n.seen + {next})
      case AnswerBegin(recorded) =>
        var next := n.pending.next;
        n.(memory := Config(next, Some(n.memory.token)), pending := Idle,
           panel := if recorded then next else n.panel, lost := if recorded then 0 else n.lost + 1)
      case WriteCommit => n.(file := n.file.(previous := None), pending := Committing)
      case AnswerCommit => n.(memory := n.memory.(previous := None), pending := Idle)
      case Restart => n.(memory := Load(n.file), pending := Idle, lost := if n.pending.Beginning? then n.lost + 1 else n.lost)
  }

  /** A begin that runs to its end leaves memory and file as its two steps do, whether its answer is recorded or lost. */
  ghost predicate BeginsAs(held: Config, file: AgentFile, next: string, now: Config, nowFile: AgentFile) {
    forall n: Node, recorded: bool ::
      n.memory == held && n.file == file && Enabled(n, WriteBegin(next)) ==>
        var t := Step(Step(n, WriteBegin(next)), AnswerBegin(recorded)); t.memory == now && t.file == nowFile
  }

  ghost predicate CommitsAs(held: Config, file: AgentFile, now: Config, nowFile: AgentFile) {
    forall n: Node ::
      n.memory == held && n.file == file && Enabled(n, WriteCommit) ==>
        var t := Step(Step(n, WriteCommit), AnswerCommit); t.memory == now && t.file == nowFile
  }

  lemma CallsAreSteps(held: Config, file: AgentFile, next: string)
    ensures BeginsAs(held, file, next, Config(next, Some(held.token)), AgentFile(next, Some(held.token), file.rest))
  {
  }

  lemma CommitIsSteps(held: Config, file: AgentFile)
    ensures CommitsAs(held, file, Config(held.token, None), file.(previous := None))
  {
  }

  function After(n: Node, events: seq<Event>): Node
    decreases |events|
  {
    if events == [] then n else Step(After(n, events[..|events| - 1]), events[|events| - 1])
  }

  predicate LongEnough(c: Config) { |c.token| >= SHORTEST && (c.previous.Some? ==> |c.previous.value| >= SHORTEST) }

  predicate FileKept(n: Node) {
    match n.pending
    case Idle => n.file.token == n.memory.token && n.file.previous == n.memory.previous
    case Beginning(next) =>
      && n.file.token == next && n.file.previous == Some(n.memory.token)
      && IsToken(next) && next != n.panel && next != n.memory.token && n.lost <= 1
    case Committing => n.file.token == n.memory.token == n.panel && n.file.previous == None && n.lost == 0
  }

  predicate PanelKept(n: Node) {
    if n.lost == 0 then n.panel == n.memory.token
    else if n.lost == 1 then n.memory.previous == Some(n.panel) && n.panel != n.memory.token
    else !Accepts(n.memory, n.panel)
  }

  predicate Kept(n: Node) {
    && LongEnough(n.memory) && FileKept(n) && PanelKept(n)
    && n.memory.token in n.seen && n.panel in n.seen && n.file.token in n.seen
  }

  lemma StepKeeps(n: Node, e: Event)
    requires Kept(n)
    ensures Kept(Step(n, e))
    ensures n.lost >= 2 ==> Step(n, e).lost >= 2
  {
  }

  lemma {:induction false} AlwaysKept(n: Node, events: seq<Event>)
    requires Kept(n)
    ensures Kept(After(n, events))
    ensures n.lost >= 2 ==> After(n, events).lost >= 2
    decreases |events|
  {
    hide Kept, Step;
    if events != [] {
      AlwaysKept(n, events[..|events| - 1]);
      StepKeeps(After(n, events[..|events| - 1]), events[|events| - 1]);
    }
  }

  /** The panel is let in, by the agent as it is and by the agent as it would start again, until two begins in a row are lost. */
  lemma PanelIsLetInIff(token: string, rest: string, events: seq<Event>)
    requires IsToken(token)
    ensures var n := After(Joined(token, rest), events);
      && (Accepts(n.memory, n.panel) <==> n.lost <= 1)
      && (Accepts(Load(n.file), n.panel) <==> n.lost + (if n.pending.Beginning? then 1 else 0) <= 1)
  {
    AlwaysKept(Joined(token, rest), events);
  }

  /** And once two were lost, nothing the panel can do lets it in again. */
  lemma LockedOutForGood(token: string, rest: string, events: seq<Event>, more: seq<Event>)
    requires IsToken(token) && After(Joined(token, rest), events).lost >= 2
    ensures var n := After(After(Joined(token, rest), events), more);
      !Accepts(n.memory, n.panel) && !Accepts(Load(n.file), n.panel)
  {
    hide After, Step;
    AlwaysKept(Joined(token, rest), events);
    AlwaysKept(After(Joined(token, rest), events), more);
  }

  /** A commit never takes the panel's own token, and after it no other is let in. */
  lemma CommitLeavesOnlyThePanel(token: string, rest: string, events: seq<Event>)
    requires IsToken(token) && After(Joined(token, rest), events).pending.Committing?
    ensures var n := Step(After(Joined(token, rest), events), AnswerCommit);
      forall t :: (Accepts(n.memory, t) <==> t == n.panel) && (Accepts(Load(n.file), t) <==> t == n.panel)
  {
    hide After;
    AlwaysKept(Joined(token, rest), events);
  }

  /** Two begins whose answers are lost, one after the other: the panel's token is gone. */
  lemma TwoLostBegins(token: string, one: string, two: string)
    requires IsToken(token) && IsToken(one) && IsToken(two) && token != one && token != two && one != two
    ensures var n := Step(Step(Step(Step(Joined(token, []), WriteBegin(one)), AnswerBegin(false)), WriteBegin(two)), AnswerBegin(false));
      n.memory == Config(two, Some(one)) && n.panel == token && n.lost == 2
  {
  }
}
