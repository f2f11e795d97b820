/** Pulling an image: what counts as movement, and why a pull that only chatters is called stalled. */
module Pulls {
  import opened Bytes

  datatype LayerState = Waiting | Downloading | Downloaded | Extracting | Done

  datatype Layer = Layer(state: LayerState, current: nat, total: nat, extracted: nat)

  datatype Named = Named(id: string, layer: Layer)

  /** The layers in the order they were announced. */
  type Layers = seq<Named>

  datatype Status = FsLayer | WaitingFor | DownloadingBytes | Verifying | DownloadComplete | ExtractingCount | PullComplete | AlreadyExists | Other

  /** One line of the stream that is about a layer; a field that is no number is absent. */
  datatype Event = Event(status: Status, id: string, current: Option<int>, total: Option<int>)

  const NEW_LAYER := Layer(Waiting, 0, 0, 0)

  function BytesOfLayer(l: Layer): nat {
    if l.state.Waiting? || l.state.Downloading? then l.current else Max(l.current, l.total)
  }

  function Sum(layers: Layers, f: Layer -> nat): nat {
    if layers == [] then 0 else f(layers[0].layer) + Sum(layers[1..], f)
  }

  function BytesOf(layers: Layers): nat { Sum(layers, BytesOfLayer) }

  function Find(layers: Layers, id: string): (at: Option<nat>)
    ensures at.Some? ==> at.value < |layers| && layers[at.value].id == id
    ensures at.None? ==> forall i :: 0 <= i < |layers| ==> layers[i].id != id
  {
    if layers == [] then None
    else if layers[0].id == id then Some(0)
    else
      var more := Find(layers[1..], id);
      if more.None? then None else Some(more.value + 1)
  }

  function CurrentOr(l: Layer): nat { if l.total > 0 then l.total else l.current }

  /** What an event makes of its layer. */
  function Apply(l: Layer, e: Event): Layer {
    match e.status
    case FsLayer | WaitingFor | Other => l
    case DownloadingBytes | Verifying =>
      l.(state := Downloading,
         total := if e.total.Some? && e.total.value > 0 then e.total.value else l.total,
         current := if e.current.Some? then Max(l.current, e.current.value) else l.current)
    case DownloadComplete => l.(state := Downloaded, current := CurrentOr(l))
    case ExtractingCount =>
      var counted := if e.current.Some? then e.current.value else 0;
      l.(state := Extracting, extracted := if counted > l.extracted then counted else l.extracted)
    case PullComplete | AlreadyExists => l.(state := Done, current := CurrentOr(l))
  }

  function LayerBefore(layers: Layers, id: string): Layer {
    match Find(layers, id)
    case None => NEW_LAYER
    case Some(at) => layers[at].layer
  }

  function Put(layers: Layers, id: string, l: Layer): Layers {
    match Find(layers, id)
    case None => layers + [Named(id, l)]
    case Some(at) => layers[at := Named(id, l)]
  }

  function Fold(layers: Layers, e: Event): Layers { Put(layers, e.id, Apply(LayerBefore(layers, e.id), e)) }

  /** Whether the pull moved. */
  predicate Moves(layers: Layers, e: Event) {
    var was := LayerBefore(layers, e.id);
    var l, first := Apply(was, e), Find(layers, e.id).None?;
    if e.status.Other? then first
    else if e.status.ExtractingCount? && l.extracted > was.extracted then true
    else first || l.state != was.state || BytesOf(Fold(layers, e)) > BytesOf(layers)
  }

  /* ── In place ────────────────────────────────────────────────────── */

  /** One line of the stream: Docker's error, a line about no layer, or one about a layer. */
  datatype Line = Failed(message: string) | AboutNothing | About(event: Event)

  class PullProgress {
    var layers: Layers
    var error: Option<string>

    constructor ()
      ensures layers == [] && error == None
    {
      layers, error := [], None;
    }

    method Bytes() returns (sum: nat)
      ensures sum == BytesOf(layers)
    {
      sum := 0;
      var i := 0;
      while i < |layers|
        invariant 0 <= i <= |layers|
        invariant sum + BytesOf(layers[i..]) == BytesOf(layers)
      {
        var layer := layers[i].layer;
        assert layers[i..][0] == layers[i] && layers[i..][1..] == layers[i + 1..];
        sum := sum + if layer.state.Waiting? || layer.state.Downloading? then layer.current else Max(layer.current, layer.total);
        i := i + 1;
      }
    }

    method ApplyEvent(line: Line) returns (moved: bool)
      modifies this
      ensures line.Failed? ==> moved && error == Some(line.message) && layers == old(layers)
      ensures line.AboutNothing? ==> !moved && error == old(error) && layers == old(layers)
      ensures line.About? ==> error == old(error) && layers == Fold(old(layers), line.event)
      ensures line.About? ==> (moved <==> Moves(old(layers), line.event))
    {
      hide Sum, Find, BytesOfLayer;
      if line.Failed? {
        error := Some(line.message);
        return true;
      }
      if line.AboutNothing? { return false; }
      var e := line.event;
      var before := Bytes();
      var found := Find(layers, e.id);
      var at := if found.Some? then found.value else |layers|;
      if found.None? { layers := layers + [Named(e.id, NEW_LAYER)]; }
      var layer := layers[at].layer;
      var was := layer.state;
      match e.status {
        case FsLayer | WaitingFor =>
        case DownloadingBytes | Verifying =>
          layer := layer.(state := Downloading);
          if e.total.Some? && e.total.value > 0 { layer := layer.(total := e.total.value); }
          if e.current.Some? { layer := layer.(current := Max(layer.current, e.current.value)); }
        case DownloadComplete =>
          layer := layer.(state := Downloaded);
          if layer.total > 0 { layer := layer.(current := layer.total); }
        case ExtractingCount =>
          layer := layer.(state := Extracting);
          var counted := if e.current.Some? then e.current.value else 0;
          if counted > layer.extracted {
            layers := layers[at := Named(e.id, layer.(extracted := counted))];
            return true;
          }
        case PullComplete | AlreadyExists =>
          layer := layer.(state := Done);
          if layer.total > 0 { layer := layer.(current := layer.total); }
        case Other =>
          return found.None?;
      }
      layers := layers[at := Named(e.id, layer)];
      var after := Bytes();
      return found.None? || layer.state != was || after > before;
    }
  }

  /* ── Movement is a measure ───────────────────────────────────────── */

  function Rank(s: LayerState): nat {
    match s
    case Waiting => 0
    case Downloading => 1
    case Downloaded => 2
    case Extracting => 3
    case Done => 4
  }

  function Weight(l: Layer): nat { 1 + Rank(l.state) + BytesOfLayer(l) + l.extracted }

  /** What a layer of the image is: how many bytes, and how far its extraction counts. */
  datatype Size = Size(id: string, bytes: nat, count: nat)

  predicate Within(l: Layer, size: Size) {
    && (l.total == 0 || l.total == size.bytes)
    && l.current <= size.bytes && l.extracted <= size.count
  }

  /** One total for a layer, and counts within its size. */
  predicate InRange(e: Event, size: Size) {
    && (e.status.DownloadingBytes? || e.status.Verifying? ==>
          && (e.total.Some? && e.total.value > 0 ==> e.total.value == size.bytes)
          && (e.current.Some? ==> e.current.value <= size.bytes))
    && (e.status.ExtractingCount? && e.current.Some? ==> e.current.value <= size.count)
  }

  /** An event that takes a layer back to a state it had left. */
  predicate TakesBack(l: Layer, e: Event) { Rank(Apply(l, e).state) < Rank(l.state) }

  /** What the image allows of an event: counts in range, and no state taken back. */
  predicate Proper(l: Layer, e: Event, size: Size) { InRange(e, size) && !TakesBack(l, e) }

  lemma LayerStaysWithin(l: Layer, e: Event, size: Size)
    requires Within(l, size) && InRange(e, size)
    ensures Within(Apply(l, e), size)
  {
  }

  lemma LayerRises(l: Layer, e: Event, size: Size)
    requires Within(l, size) && Proper(l, e, size)
    ensures Within(Apply(l, e), size)
    ensures BytesOfLayer(Apply(l, e)) >= BytesOfLayer(l) && Weight(Apply(l, e)) >= Weight(l)
    ensures var t := Apply(l, e);
      Weight(t) > Weight(l) <==> t.state != l.state || BytesOfLayer(t) > BytesOfLayer(l) || t.extracted > l.extracted
  {
  }

  lemma {:induction false} SumUpdate(layers: Layers, at: nat, x: Named, f: Layer -> nat)
    requires at < |layers|
    ensures Sum(layers[at := x], f) == Sum(layers, f) - f(layers[at].layer) + f(x.layer)
  {
    if at == 0 {
      assert layers[at := x][1..] == layers[1..];
    } else {
      assert layers[at := x][1..] == layers[1..][at - 1 := x];
      SumUpdate(layers[1..], at - 1, x, f);
    }
  }

  lemma {:induction false} SumPush(layers: Layers, x: Named, f: Layer -> nat)
    ensures Sum(layers + [x], f) == Sum(layers, f) + f(x.layer)
  {
    if layers == [] {
      assert (layers + [x])[1..] == [];
    } else {
      assert (layers + [x])[1..] == layers[1..] + [x];
      SumPush(layers[1..], x, f);
    }
  }

  lemma SumAfter(layers: Layers, id: string, l: Layer, f: Layer -> nat)
    ensures Sum(Put(layers, id, l), f) == Sum(layers, f) + f(l) - (if Find(layers, id).Some? then f(LayerBefore(layers, id)) else 0)
  {
    match Find(layers, id)
    case None => SumPush(layers, Named(id, l), f);
    case Some(at) => SumUpdate(layers, at, Named(id, l), f);
  }

  predicate DistinctIds(layers: Layers) { forall i, j :: 0 <= i < j < |layers| ==> layers[i].id != layers[j].id }

  function SizeOf(image: seq<Size>, id: string): (size: Option<Size>)
    ensures size.Some? ==> size.value in image && size.value.id == id
  {
    if image == [] then None else if image[0].id == id then Some(image[0]) else SizeOf(image[1..], id)
  }

  predicate Fits(layers: Layers, image: seq<Size>) {
    && DistinctIds(layers)
    && forall i :: 0 <= i < |layers| ==>
         SizeOf(image, layers[i].id).Some? && Within(layers[i].layer, SizeOf(image, layers[i].id).value)
  }

  predicate InRangeEvent(e: Event, image: seq<Size>) { SizeOf(image, e.id).Some? && InRange(e, SizeOf(image, e.id).value) }

  predicate ProperEvent(layers: Layers, e: Event, image: seq<Size>) {
    InRangeEvent(e, image) && !TakesBack(LayerBefore(layers, e.id), e)
  }

  lemma FoldFits(layers: Layers, e: Event, image: seq<Size>)
    requires Fits(layers, image) && InRangeEvent(e, image)
    ensures Fits(Fold(layers, e), image)
  {
    hide Apply, Within, InRange;
    var l, size := LayerBefore(layers, e.id), SizeOf(image, e.id).value;
    BeforeFits(layers, e.id, image);
    LayerStaysWithin(l, e, size);
  }

  /** On an orderly stream the bytes never go down, and an event moves the pull exactly when it raises the measure. */
  lemma MovesIffItRises(layers: Layers, e: Event, image: seq<Size>)
    requires Fits(layers, image) && ProperEvent(layers, e, image)
    ensures Fits(Fold(layers, e), image)
    ensures BytesOf(Fold(layers, e)) >= BytesOf(layers)
    ensures Sum(Fold(layers, e), Weight) >= Sum(layers, Weight)
    ensures Moves(layers, e) <==> Sum(Fold(layers, e), Weight) > Sum(layers, Weight)
  {
    hide Sum, Apply, Weight, BytesOfLayer, Within, InRange, TakesBack;
    var l, size := LayerBefore(layers, e.id), SizeOf(image, e.id).value;
    BeforeFits(layers, e.id, image);
    LayerRises(l, e, size);
    SumAfter(layers, e.id, Apply(l, e), Weight);
    SumAfter(layers, e.id, Apply(l, e), BytesOfLayer);
    NewWeighsNothing();
    OnlyItsState(l, e);
  }

  lemma BeforeFits(layers: Layers, id: string, image: seq<Size>)
    requires Fits(layers, image) && SizeOf(image, id).Some?
    ensures Within(LayerBefore(layers, id), SizeOf(image, id).value)
  {
  }

  lemma NewWeighsNothing()
    ensures BytesOfLayer(NEW_LAYER) == 0
    ensures forall l :: Weight(l) > 0
  {
  }

  lemma OnlyItsState(l: Layer, e: Event)
    ensures e.status.Other? ==> Apply(l, e) == l
    ensures !e.status.ExtractingCount? ==> Apply(l, e).extracted == l.extracted
  {
  }

  /** With counts in range, movement that does not raise the measure is a state taken back, and nothing else. */
  lemma OnlyATakenBackState(layers: Layers, e: Event, image: seq<Size>)
    requires Fits(layers, image) && InRangeEvent(e, image)
    requires Moves(layers, e) && Sum(Fold(layers, e), Weight) <= Sum(layers, Weight)
    ensures TakesBack(LayerBefore(layers, e.id), e)
  {
    hide Sum, Fold, Moves, Weight, TakesBack, Fits, InRange;
    if !TakesBack(LayerBefore(layers, e.id), e) {
      MovesIffItRises(layers, e, image);
    }
  }

  /** Saying a thing again is not movement, whatever came before. */
  lemma RepeatingNeverMoves(layers: Layers, e: Event)
    ensures Fold(Fold(layers, e), e) == Fold(layers, e) && !Moves(Fold(layers, e), e)
  {
    hide Sum;
    var l, t := Apply(LayerBefore(layers, e.id), e), Fold(layers, e);
    FoundAgain(layers, e.id, l);
    assert Apply(l, e) == l;
    assert t[Find(t, e.id).value := Named(e.id, l)] == t;
  }

  lemma {:induction false} FoundAgain(layers: Layers, id: string, l: Layer)
    ensures Find(Put(layers, id, l), id).Some? && LayerBefore(Put(layers, id, l), id) == l
    decreases |layers|
  {
    if layers != [] && layers[0].id != id {
      FoundAgain(layers[1..], id, l);
      assert Put(layers, id, l) == [layers[0]] + Put(layers[1..], id, l);
    }
  }

  /* ── What moves a pull ───────────────────────────────────────────── */

  /** A pull moves when a layer is first heard of, when a layer changes its state, when the bytes of one that downloads grow, and
      when the count of one that is extracted goes up; and by nothing else. */
  lemma WhatMoves(layers: Layers, e: Event)
    ensures var l, first := LayerBefore(layers, e.id), Find(layers, e.id).None?;
      Moves(layers, e) <==>
        match e.status
        case FsLayer | WaitingFor | Other => first
        case DownloadingBytes | Verifying => first || l.state != Downloading || (e.current.Some? && e.current.value > l.current)
        case DownloadComplete => first || l.state != Downloaded
        case ExtractingCount => first || l.state != Extracting || (e.current.Some? && e.current.value > l.extracted)
        case PullComplete | AlreadyExists => first || l.state != Done
  {
    hide Sum;
    SumAfter(layers, e.id, Apply(LayerBefore(layers, e.id), e), BytesOfLayer);
  }

  predicate OnItsWay(l: Layer) { l.state == Waiting || l.state == Downloading }

  /** The bytes shown: of a layer not yet downloaded what has arrived, of any other all of it. */
  lemma {:induction false} BytesShown(layers: Layers)
    ensures (forall i :: 0 <= i < |layers| ==> OnItsWay(layers[i].layer)) ==> BytesOf(layers) == Sum(layers, (l: Layer) => l.current)
    ensures (forall i :: 0 <= i < |layers| ==> !OnItsWay(layers[i].layer) && layers[i].layer.current <= layers[i].layer.total) ==>
              BytesOf(layers) == Sum(layers, (l: Layer) => l.total)
  {
    if layers != [] {
      BytesShown(layers[1..]);
    }
  }

  lemma {:induction false} OthersStay(layers: Layers, id: string, l: Layer, other: string)
    requires other != id
    ensures LayerBefore(Put(layers, id, l), other) == LayerBefore(layers, other)
    decreases |layers|
  {
    if layers != [] && layers[0].id != id && layers[0].id != other {
      OthersStay(layers[1..], id, l, other);
      assert Put(layers, id, l) == [layers[0]] + Put(layers[1..], id, l);
    } else if layers != [] && layers[0].id == id {
      assert Put(layers, id, l) == [Named(id, l)] + layers[1..];
    }
  }

  /** What is known of a layer after an event: nothing new of another; of its own, the size Docker last gave; and what has arrived,
      which never goes down while it is told, and is the whole of a known size once its download is complete. */
  lemma WhatIsKnown(layers: Layers, e: Event, id: string)
    ensures var l, t := LayerBefore(layers, id), LayerBefore(Fold(layers, e), id);
      && (id != e.id ==> t == l)
      && (id == e.id && (e.status.DownloadingBytes? || e.status.Verifying?) ==>
            && t.total == (if e.total.Some? && e.total.value > 0 then e.total.value else l.total)
            && t.current >= l.current && (e.current.Some? ==> t.current >= e.current.value)
            && (t.current == l.current || e.current == Some(t.current)))
      && (id == e.id && !e.status.DownloadingBytes? && !e.status.Verifying? ==> t.total == l.total)
      && (id == e.id && (e.status.DownloadComplete? || e.status.PullComplete? || e.status.AlreadyExists?) ==>
            if l.total > 0 then t.current == l.total else t.current == l.current)
      && (id == e.id && e.status.ExtractingCount? ==>
            && t.current == l.current && t.extracted >= l.extracted && (e.current.Some? ==> t.extracted >= e.current.value)
            && (t.extracted == l.extracted || e.current == Some(t.extracted)))
  {
    var l := Apply(LayerBefore(layers, e.id), e);
    if id == e.id {
      FoundAgain(layers, id, l);
    } else {
      OthersStay(layers, e.id, l, id);
    }
    hide Find, Put;
  }

  /* ── It cannot move for ever ─────────────────────────────────────── */

  function Limit(image: seq<Size>): nat {
    if image == [] then 0 else 5 + image[0].bytes + image[0].count + Limit(image[1..])
  }

  lemma {:induction false} SumWithout(layers: Layers, at: nat, f: Layer -> nat)
    requires at < |layers|
    ensures Sum(layers, f) == f(layers[at].layer) + Sum(layers[..at] + layers[at + 1..], f)
  {
    if at == 0 {
      assert layers[..0] + layers[1..] == layers[1..];
    } else {
      SumWithout(layers[1..], at - 1, f);
      var rest, after := layers[..at] + layers[at + 1..], layers[1..][..at - 1] + layers[1..][at..];
      assert rest[0] == layers[0] && rest[1..] == after;
      assert Sum(rest, f) == f(layers[0].layer) + Sum(after, f);
    }
  }

  lemma {:induction false} NeverAboveTheLimit(layers: Layers, image: seq<Size>)
    requires Fits(layers, image)
    ensures Sum(layers, Weight) <= Limit(image)
    decreases |image|
  {
    if layers == [] {
    } else {
      assert SizeOf(image, layers[0].id).Some?;
      var size := image[0];
      match Find(layers, size.id)
      case None =>
        NeverAboveTheLimit(layers, image[1..]);
      case Some(at) =>
        SumWithout(layers, at, Weight);
        var rest := layers[..at] + layers[at + 1..];
        assert SizeOf(image, layers[at].id) == Some(size);
        WeightWithin(layers[at].layer, size);
        RestFits(layers, at, image);
        NeverAboveTheLimit(rest, image[1..]);
    }
  }

  lemma WeightWithin(l: Layer, size: Size)
    requires Within(l, size)
    ensures Weight(l) <= 5 + size.bytes + size.count
  {
  }

  lemma RestFits(layers: Layers, at: nat, image: seq<Size>)
    requires Fits(layers, image) && image != [] && at < |layers| && layers[at].id == image[0].id
    ensures Fits(layers[..at] + layers[at + 1..], image[1..])
  {
    hide Within;
    var rest := layers[..at] + layers[at + 1..];
    forall i | 0 <= i < |rest|
      ensures SizeOf(image[1..], rest[i].id).Some? && Within(rest[i].layer, SizeOf(image[1..], rest[i].id).value)
    {
      var k := if i < at then i else i + 1;
      assert rest[i] == layers[k] && layers[k].id != image[0].id;
    }
  }

  /* ── A pull that does not move is called stalled ─────────────────── */

  /** A pull under way, and how often it moved (history). */
  datatype Job = Job(layers: Layers, startedAt: nat, advancedAt: nat, now: nat, checkedAt: nat, moves: nat, failed: bool)

  /** A line about a layer arrives, or the pull is looked at. */
  datatype Turn = Said(at: nat, event: Event) | Looked(at: nat)

  function Started(at: nat): Job { Job([], at, at, at, at, 0, false) }

  function TurnTo(j: Job, turn: Turn, stallMs: nat): Job {
    match turn
    case Said(at, e) =>
      var k := j.(layers := Fold(j.layers, e), now := at);
      if Moves(j.layers, e) then k.(advancedAt := at, moves := j.moves + 1) else k
    case Looked(at) =>
      j.(now := at, checkedAt := at, failed := j.failed || at - j.advancedAt > stallMs)
  }

  function After(at: nat, turns: seq<Turn>, stallMs: nat): Job
    decreases |turns|
  {
    if turns == [] then Started(at) else TurnTo(After(at, turns[..|turns| - 1], stallMs), turns[|turns| - 1], stallMs)
  }

  class PullJob {
    const progress: PullProgress
    var startedAt: nat
    var advancedAt: nat
    var now: nat
    var checkedAt: nat
    var moves: nat
    var failed: bool

    function Here(): Job
      reads this, progress
    {
      Job(progress.layers, startedAt, advancedAt, now, checkedAt, moves, failed)
    }

    constructor (at: nat)
      ensures Here() == Started(at) && fresh(progress)
    {
      progress := new PullProgress();
      startedAt, advancedAt, now, checkedAt, moves, failed := at, at, at, at, 0, false;
    }

    method TakeLine(at: nat, e: Event, stallMs: nat)
      modifies this, progress
      ensures Here() == TurnTo(old(Here()), Said(at, e), stallMs)
    {
      now := at;
      var moved := progress.ApplyEvent(About(e));
      if moved { advancedAt, moves := at, moves + 1; }
    }

    method CheckStall(at: nat, stallMs: nat)
      modifies this
      ensures Here() == TurnTo(old(Here()), Looked(at), stallMs)
    {
      now, checkedAt := at, at;
      if failed || at - advancedAt <= stallMs { return; }
      failed := true;
    }

    method Run(turns: seq<Turn>, stallMs: nat)
      requires Here() == Started(startedAt)
      modifies this, progress
      ensures Here() == After(old(startedAt), turns, stallMs)
    {
      hide TurnTo;
      var i := 0;
      while i < |turns|
        invariant 0 <= i <= |turns| && Here() == After(old(startedAt), turns[..i], stallMs)
      {
        assert turns[..i + 1][..i] == turns[..i];
        match turns[i] {
          case Said(at, e) => TakeLine(at, e, stallMs);
          case Looked(at) => CheckStall(at, stallMs);
        }
        i := i + 1;
      }
      assert turns[..i] == turns;
    }
  }

  /** Time goes on, the pull is looked at every so often, and counts are in range. */
  predicate Watched(at: nat, turns: seq<Turn>, stallMs: nat, every: nat, image: seq<Size>)
    decreases |turns|
  {
    turns != [] ==>
      var before, turn := After(at, turns[..|turns| - 1], stallMs), turns[|turns| - 1];
      && Watched(at, turns[..|turns| - 1], stallMs, every, image)
      && before.now <= turn.at <= before.checkedAt + every
      && (turn.Said? ==> InRangeEvent(turn.event, image))
  }

  predicate TurnTakesBack(j: Job, turn: Turn) { turn.Said? && TakesBack(LayerBefore(j.layers, turn.event.id), turn.event) }

  /** How often a state was taken back. */
  function TakenBack(at: nat, turns: seq<Turn>, stallMs: nat): nat
    decreases |turns|
  {
    if turns == [] then 0
    else
      var more := if TurnTakesBack(After(at, turns[..|turns| - 1], stallMs), turns[|turns| - 1]) then 1 else 0;
      TakenBack(at, turns[..|turns| - 1], stallMs) + more
  }

  predicate Timely(j: Job, back: nat, stallMs: nat, every: nat, image: seq<Size>) {
    && Fits(j.layers, image)
    && j.moves <= Sum(j.layers, Weight) + back * (Limit(image) + 1)
    && j.startedAt <= j.advancedAt <= j.now <= j.checkedAt + every
    && j.advancedAt - j.startedAt <= j.moves * (stallMs + every)
    && j.checkedAt - j.advancedAt <= stallMs
  }

  lemma FoldMoves(j: Job, e: Event, back: nat, image: seq<Size>)
    requires Fits(j.layers, image) && InRangeEvent(e, image)
    requires j.moves <= Sum(j.layers, Weight) + back * (Limit(image) + 1)
    ensures var now := back + if TakesBack(LayerBefore(j.layers, e.id), e) then 1 else 0;
      && Fits(Fold(j.layers, e), image)
      && j.moves + (if Moves(j.layers, e) then 1 else 0) <= Sum(Fold(j.layers, e), Weight) + now * (Limit(image) + 1)
  {
    hide Fits, InRange, Fold, Moves, Sum, Weight, TakesBack, Limit;
    FoldFits(j.layers, e, image);
    NeverAboveTheLimit(j.layers, image);
    if TakesBack(LayerBefore(j.layers, e.id), e) {
      assert (back + 1) * (Limit(image) + 1) == back * (Limit(image) + 1) + (Limit(image) + 1);
    } else {
      MovesIffItRises(j.layers, e, image);
    }
  }

  lemma TurnIsTimely(j: Job, turn: Turn, back: nat, stallMs: nat, every: nat, image: seq<Size>)
    requires Timely(j, back, stallMs, every, image)
    requires j.now <= turn.at <= j.checkedAt + every && (turn.Said? ==> InRangeEvent(turn.event, image))
    ensures var k := TurnTo(j, turn, stallMs);
      !k.failed ==> Timely(k, back + if TurnTakesBack(j, turn) then 1 else 0, stallMs, every, image)
  {
    hide Fits, InRangeEvent, Fold, Moves, Sum, Weight, TakesBack, Limit;
    if turn.Said? {
      FoldMoves(j, turn.event, back, image);
      assert (j.moves + 1) * (stallMs + every) == j.moves * (stallMs + every) + (stallMs + every);
    }
  }

  lemma {:induction false} AlwaysTimely(at: nat, turns: seq<Turn>, stallMs: nat, every: nat, image: seq<Size>)
    requires Watched(at, turns, stallMs, every, image)
    ensures var j := After(at, turns, stallMs);
      j.startedAt == at && (!j.failed ==> Timely(j, TakenBack(at, turns, stallMs), stallMs, every, image))
    decreases |turns|
  {
    hide Timely, TurnTo, TurnTakesBack, InRangeEvent;
    if turns == [] {
      StartedIsTimely(at, stallMs, every, image);
    } else {
      var before := After(at, turns[..|turns| - 1], stallMs);
      AlwaysTimely(at, turns[..|turns| - 1], stallMs, every, image);
      StartAndFailureStay(before, turns[|turns| - 1], stallMs);
      if !before.failed {
        TurnIsTimely(before, turns[|turns| - 1], TakenBack(at, turns[..|turns| - 1], stallMs), stallMs, every, image);
      }
    }
  }

  lemma StartedIsTimely(at: nat, stallMs: nat, every: nat, image: seq<Size>)
    ensures Timely(Started(at), 0, stallMs, every, image)
  {
  }

  lemma StartAndFailureStay(j: Job, turn: Turn, stallMs: nat)
    ensures TurnTo(j, turn, stallMs).startedAt == j.startedAt && (j.failed ==> TurnTo(j, turn, stallMs).failed)
  {
  }

  /** However much Docker chatters, a pull still running has moved within the image's limit, once over for every state that was
      taken back, and is no older than that allows. */
  lemma ChatterCannotKeepIt(at: nat, turns: seq<Turn>, stallMs: nat, every: nat, image: seq<Size>)
    requires Watched(at, turns, stallMs, every, image) && !After(at, turns, stallMs).failed
    ensures var j, back := After(at, turns, stallMs), TakenBack(at, turns, stallMs);
      && j.moves <= Limit(image) + back * (Limit(image) + 1)
      && j.now - at <= (j.moves + 1) * (stallMs + every)
  {
    hide After, Sum, Weight, TakenBack;
    AlwaysTimely(at, turns, stallMs, every, image);
    var j := After(at, turns, stallMs);
    NeverAboveTheLimit(j.layers, image);
    assert (j.moves + 1) * (stallMs + every) == j.moves * (stallMs + every) + (stallMs + every);
  }

  /** So on a stream that takes no state back, a pull ends or is called stalled within a time the image fixes. */
  lemma OrderlyPullsEnd(at: nat, turns: seq<Turn>, stallMs: nat, every: nat, image: seq<Size>)
    requires Watched(at, turns, stallMs, every, image) && TakenBack(at, turns, stallMs) == 0 && !After(at, turns, stallMs).failed
    ensures var j := After(at, turns, stallMs);
      j.moves <= Limit(image) && j.now - at <= (Limit(image) + 1) * (stallMs + every)
  {
    hide After, Sum, Weight, TakenBack;
    ChatterCannotKeepIt(at, turns, stallMs, every, image);
    MulMonotone(After(at, turns, stallMs).moves + 1, Limit(image) + 1, stallMs + every);
  }

  /* ── A stream that takes states back ─────────────────────────────── */

  /** A look at the pull, and two things said in turn of one layer, `n` times over. */
  function Chatter(at: nat, gap: nat, id: string, n: nat): seq<Turn> {
    if n == 0 then []
    else Chatter(at, gap, id, n - 1) + Round(at + n * gap, id)
  }

  function Round(now: nat, id: string): seq<Turn> {
    [Looked(now), Said(now, Event(DownloadingBytes, id, None, None)), Said(now, Event(DownloadComplete, id, None, None))]
  }

  lemma RoundMoves(layers: Layers, id: string)
    requires !LayerBefore(layers, id).state.Downloading?
    ensures var down, done := Event(DownloadingBytes, id, None, None), Event(DownloadComplete, id, None, None);
      && Moves(layers, down) && Moves(Fold(layers, down), done)
      && LayerBefore(Fold(Fold(layers, down), done), id).state.Downloaded?
  {
    hide Sum;
    var down, done := Event(DownloadingBytes, id, None, None), Event(DownloadComplete, id, None, None);
    FoundAgain(layers, id, Apply(LayerBefore(layers, id), down));
    var t := Fold(layers, down);
    FoundAgain(t, id, Apply(LayerBefore(t, id), done));
  }

  lemma AfterOneMore(at: nat, turns: seq<Turn>, turn: Turn, stallMs: nat)
    ensures After(at, turns + [turn], stallMs) == TurnTo(After(at, turns, stallMs), turn, stallMs)
  {
    assert (turns + [turn])[..|turns|] == turns;
  }

  lemma AfterRound(at: nat, turns: seq<Turn>, now: nat, id: string, stallMs: nat)
    ensures var down, done := Event(DownloadingBytes, id, None, None), Event(DownloadComplete, id, None, None);
      After(at, turns + Round(now, id), stallMs)
      == TurnTo(TurnTo(TurnTo(After(at, turns, stallMs), Looked(now), stallMs), Said(now, down), stallMs), Said(now, done), stallMs)
  {
    hide After, TurnTo;
    var down, done := Said(now, Event(DownloadingBytes, id, None, None)), Said(now, Event(DownloadComplete, id, None, None));
    AfterOneMore(at, turns, Looked(now), stallMs);
    AfterOneMore(at, turns + [Looked(now)], down, stallMs);
    AfterOneMore(at, turns + [Looked(now)] + [down], done, stallMs);
    assert turns + Round(now, id) == turns + [Looked(now)] + [down] + [done];
  }

  /** It moves every time, for as long as one likes, and no look at it ever finds it stalled. */
  lemma {:induction false} DisorderMovesForEver(at: nat, gap: nat, id: string, n: nat, stallMs: nat)
    requires gap <= stallMs
    ensures var j := After(at, Chatter(at, gap, id, n), stallMs);
      && !j.failed && j.moves == 2 * n && j.now == j.advancedAt == at + n * gap
      && !LayerBefore(j.layers, id).state.Downloading?
  {
    hide Fold, Moves, LayerBefore;
    if n == 0 {
      NothingSaid(at, id, stallMs);
    } else {
      DisorderMovesForEver(at, gap, id, n - 1, stallMs);
      var before := Chatter(at, gap, id, n - 1);
      assert n * gap == (n - 1) * gap + gap;
      AfterRound(at, before, at + n * gap, id, stallMs);
      RoundMoves(After(at, before, stallMs).layers, id);
    }
  }

  lemma NothingSaid(at: nat, id: string, stallMs: nat)
    ensures After(at, [], stallMs) == Started(at) && !LayerBefore(Started(at).layers, id).state.Downloading?
  {
  }
}
