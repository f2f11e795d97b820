/** Room on the disk: what is kept free, what lets a restore in, and what stops it while it unpacks. */
module Room {
  import opened Bytes

  const MIB: nat := 1024 * 1024
  const GIB: nat := 1024 * MIB
  const MARGIN: nat := 512 * MIB

  /** What is kept free beside a backup or a restore; `given` is the setting, when it is a number that is not negative. */
  function FloorFor(total: nat, given: Option<nat>): nat {
    match given
    case Some(bytes) => bytes
    case None => Min(Max(2 * GIB, total * 5 / 100), 10 * GIB) as nat
  }

  /** The line that stops an unpacking. */
  function HardFloor(total: nat, given: Option<nat>): nat { Min(FloorFor(total, given), MARGIN) as nat }

  /** The size a gzip file gives for what it holds: 32 bits of it, and never less than the file. */
  function Estimate(unpacked: nat, compressed: nat): nat { Max(unpacked % 0x1_0000_0000, compressed) as nat }

  /** The estimate covers what is unpacked exactly when 32 bits do, or when the archive is no smaller than its contents. */
  lemma EstimateCovers(unpacked: nat, compressed: nat)
    ensures unpacked <= Estimate(unpacked, compressed) <==> unpacked < 0x1_0000_0000 || unpacked <= compressed
    ensures compressed <= unpacked < 0x1_0000_0000 ==> Estimate(unpacked, compressed) == unpacked
  {
    if unpacked >= 0x1_0000_0000 {
      assert unpacked % 0x1_0000_0000 < unpacked;
    }
  }

  predicate AdmitsSwapped(free: nat, total: nat, given: Option<nat>, needed: nat) {
    free >= needed + FloorFor(total, given)
  }

  predicate AdmitsInPlace(free: nat, total: nat, given: Option<nat>, world: nat, needed: nat) {
    free + world >= needed + HardFloor(total, given)
  }

  /** Between the smallest and the largest floor the 5 percent counts: from 40 GiB of disk to 200. */
  lemma FloorIsBetween(total: nat)
    ensures 2 * GIB <= FloorFor(total, None) <= 10 * GIB
    ensures FloorFor(total, None) == 2 * GIB <==> total * 5 < (2 * GIB + 1) * 100
    ensures FloorFor(total, None) == 10 * GIB <==> total >= 200 * GIB
  {
  }

  function Total(sizes: seq<nat>): nat { if sizes == [] then 0 else sizes[0] + Total(sizes[1..]) }

  /* ── Unpacking ───────────────────────────────────────────────────── */

  /** The disk an unpacking writes to, with nobody else writing: what is free, what was written, and when it last looked. */
  datatype Looks = Looks(free: int, written: nat, checkedAt: nat, stopped: bool)

  /** A chunk is written, and the disk looked at when enough has been since the last look. */
  function PutRan(l: Looks, chunk: nat, hardFloor: nat, checkEvery: nat): Looks {
    var free, written := l.free - chunk, l.written + chunk;
    if written - l.checkedAt >= checkEvery then Looks(free, written, written, free < hardFloor)
    else Looks(free, written, l.checkedAt, false)
  }

  /** Chunk after chunk, up to the one that stops it. */
  function PutAllRan(l: Looks, chunks: seq<nat>, hardFloor: nat, checkEvery: nat): Looks
    decreases |chunks|
  {
    if l.stopped || chunks == [] then l
    else PutAllRan(PutRan(l, chunks[0], hardFloor, checkEvery), chunks[1..], hardFloor, checkEvery)
  }

  /** How an unpacking of these chunks ends that begins with so much free. */
  function Unpacked(free: int, chunks: seq<nat>, hardFloor: nat, checkEvery: nat): Looks {
    PutAllRan(Looks(free, 0, 0, false), chunks, hardFloor, checkEvery)
  }

  class Unpacking {
    const hardFloor: nat
    const checkEvery: nat
    var free: int
    var written: nat
    var checkedAt: nat
    var stopped: bool

    function Now(): Looks
      reads this
    {
      Looks(free, written, checkedAt, stopped)
    }

    constructor (free: int, hardFloor: nat, checkEvery: nat)
      ensures Now() == Looks(free, 0, 0, false) && this.hardFloor == hardFloor && this.checkEvery == checkEvery
    {
      this.hardFloor, this.checkEvery, this.free := hardFloor, checkEvery, free;
      written, checkedAt, stopped := 0, 0, false;
    }

    method Put(chunk: nat)
      requires !stopped
      modifies this
      ensures Now() == PutRan(old(Now()), chunk, hardFloor, checkEvery)
    {
      free := free - chunk;
      written := written + chunk;
      if written - checkedAt >= checkEvery {
        checkedAt := written;
        if free < hardFloor { stopped := true; }
      }
    }

    method PutAll(chunks: seq<nat>)
      requires Now() == Looks(free, 0, 0, false)
      modifies this
      ensures Now() == Unpacked(old(free), chunks, hardFloor, checkEvery)
    {
      var i := 0;
      while i < |chunks| && !stopped
        invariant 0 <= i <= |chunks|
        invariant PutAllRan(Now(), chunks[i..], hardFloor, checkEvery) == Unpacked(old(free), chunks, hardFloor, checkEvery)
      {
        assert chunks[i..][0] == chunks[i] && chunks[i..][1..] == chunks[i + 1..];
        Put(chunks[i]);
        i := i + 1;
      }
    }
  }

  /** What holds from one write to the next. */
  predicate Kept(l: Looks, start: int, hardFloor: nat, checkEvery: nat) {
    && l.free == start - l.written && l.checkedAt <= l.written
    && (!l.stopped ==> start - l.checkedAt >= hardFloor && l.written - l.checkedAt < Max(1, checkEvery))
    && (l.stopped ==> l.free < hardFloor)
  }

  lemma PutKeeps(l: Looks, chunk: nat, start: int, hardFloor: nat, checkEvery: nat)
    requires Kept(l, start, hardFloor, checkEvery) && !l.stopped
    ensures var m := PutRan(l, chunk, hardFloor, checkEvery);
      && Kept(m, start, hardFloor, checkEvery) && m.written == l.written + chunk
      && m.free > hardFloor - Max(1, checkEvery) - chunk
  {
  }

  /** A whole unpacking: it is stopped only below the floor, has written everything when it was not, and never takes what is free
      more than one interval and one chunk below the floor. */
  lemma {:induction false} NeverFarBelow(l: Looks, chunks: seq<nat>, largest: nat, start: int, hardFloor: nat, checkEvery: nat)
    requires Kept(l, start, hardFloor, checkEvery) && forall c :: c in chunks ==> c <= largest
    requires l.free >= hardFloor - Max(1, checkEvery) - largest
    ensures var m := PutAllRan(l, chunks, hardFloor, checkEvery);
      && m.free == start - m.written && m.written <= l.written + Total(chunks)
      && (m.stopped ==> m.free < hardFloor)
      && (!m.stopped ==> m.written == l.written + Total(chunks))
      && m.free >= hardFloor - Max(1, checkEvery) - largest
    decreases |chunks|
  {
    if !l.stopped && chunks != [] {
      PutKeeps(l, chunks[0], start, hardFloor, checkEvery);
      assert chunks[0] in chunks && forall c :: c in chunks[1..] ==> c in chunks;
      NeverFarBelow(PutRan(l, chunks[0], hardFloor, checkEvery), chunks[1..], largest, start, hardFloor, checkEvery);
    }
  }

  /** An unpacking that begins above the floor. */
  lemma UnpackingStaysClose(free: int, chunks: seq<nat>, largest: nat, hardFloor: nat, checkEvery: nat)
    requires free >= hardFloor && forall c :: c in chunks ==> c <= largest
    ensures var m := Unpacked(free, chunks, hardFloor, checkEvery);
      && (m.stopped ==> m.free < hardFloor)
      && (!m.stopped ==> m.free == free - Total(chunks))
      && m.free >= hardFloor - Max(1, checkEvery) - largest
      && (free - Total(chunks) >= hardFloor || Total(chunks) < checkEvery ==> !m.stopped)
  {
    if Total(chunks) < checkEvery { NotLookedYet(Looks(free, 0, 0, false), chunks, hardFloor, checkEvery); }
    NeverFarBelow(Looks(free, 0, 0, false), chunks, largest, free, hardFloor, checkEvery);
  }

  /** Before as much is written as lies between two looks, nothing stops it. */
  lemma {:induction false} NotLookedYet(l: Looks, chunks: seq<nat>, hardFloor: nat, checkEvery: nat)
    requires !l.stopped && l.checkedAt == 0 && l.written + Total(chunks) < checkEvery
    ensures !PutAllRan(l, chunks, hardFloor, checkEvery).stopped
    decreases |chunks|
  {
    if chunks != [] {
      NotLookedYet(PutRan(l, chunks[0], hardFloor, checkEvery), chunks[1..], hardFloor, checkEvery);
    }
  }

  /** A restore that was let in, in either mode, with an estimate that covers the archive, is never stopped
      for want of it. The in-place restore has removed the world before it unpacks. */
  lemma LetInIsNotStopped(free: nat, total: nat, given: Option<nat>, world: nat, needed: nat, inPlace: bool,
                          checkEvery: nat, chunks: seq<nat>)
    requires if inPlace then AdmitsInPlace(free, total, given, world, needed) else AdmitsSwapped(free, total, given, needed)
    requires Total(chunks) <= needed
    ensures !Unpacked(if inPlace then free + world else free, chunks, HardFloor(total, given), checkEvery).stopped
  {
    hide FloorFor;
    forall c | c in chunks ensures c <= Total(chunks) {
      var i :| 0 <= i < |chunks| && chunks[i] == c;
      OneOfThem(chunks, i);
    }
    UnpackingStaysClose(if inPlace then free + world else free, chunks, Total(chunks), HardFloor(total, given), checkEvery);
  }

  /** What each check lets in, in bytes. A swapped restore is let in exactly when as much as its estimate may be written and the
      floor is still free: without a setting five percent of the disk, 2 GiB at least and 10 at most. */
  lemma SwappedLeavesTheFloor(free: nat, total: nat, given: Option<nat>, needed: nat)
    ensures AdmitsSwapped(free, total, given, needed) <==>
      && (given.Some? ==> free - needed >= given.value)
      && (given.None? ==>
            && free - needed >= 2147483648
            && (free - needed >= 10737418240 || (free - needed + 1) * 100 > total * 5))
  {
  }

  /** Whether an unpacking is stopped, by how it is cut into chunks and how often the disk is looked at. */
  ghost predicate NeverStopped(room: int, needed: nat, hardFloor: nat) {
    forall chunks: seq<nat>, checkEvery: nat :: Total(chunks) == needed ==> !Unpacked(room, chunks, hardFloor, checkEvery).stopped
  }

  /** The restore in place is let in exactly when no unpacking of its estimate, however it is cut and looked at, would be stopped
      in the room the world leaves. */
  lemma InPlaceIffNotStopped(free: nat, total: nat, given: Option<nat>, world: nat, needed: nat)
    ensures AdmitsInPlace(free, total, given, world, needed) <==> NeverStopped(free + world, needed, HardFloor(total, given))
  {
    hide FloorFor, HardFloor;
    var room, hardFloor := free + world, HardFloor(total, given);
    if AdmitsInPlace(free, total, given, world, needed) {
      forall chunks: seq<nat>, checkEvery: nat | Total(chunks) == needed ensures !Unpacked(room, chunks, hardFloor, checkEvery).stopped {
        LetInIsNotStopped(free, total, given, world, needed, true, checkEvery, chunks);
      }
    } else {
      var all := [needed];
      assert all[1..] == [] && Total(all) == needed;
      var looks := Looks(room, 0, 0, false);
      assert PutAllRan(looks, all, hardFloor, 0) == PutAllRan(PutRan(looks, needed, hardFloor, 0), all[1..], hardFloor, 0);
      assert Unpacked(room, all, hardFloor, 0).stopped;
    }
  }

  /** The line that stops an unpacking is 512 MiB, or the floor when that is lower. */
  lemma TheLine(total: nat, given: Option<nat>)
    ensures given.None? || given.value >= 536870912 ==> HardFloor(total, given) == 536870912
    ensures given.Some? && given.value < 536870912 ==> HardFloor(total, given) == given.value
  {
  }

  lemma {:induction false} OneOfThem(sizes: seq<nat>, i: nat)
    requires i < |sizes|
    ensures sizes[i] <= Total(sizes)
    decreases i
  {
    if i > 0 {
      OneOfThem(sizes[1..], i - 1);
    }
  }
}
