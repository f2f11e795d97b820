/** The certificate writer's DER: what it writes reads back, and is the shortest form of it (ITU-T X.690). */
module Der {
  import opened Bytes

  const INTEGER: byte := 0x02
  const OBJECT_IDENTIFIER: byte := 0x06

  /* ── Tag, length, contents ───────────────────────────────────────── */

  /** The length in one octet, or one octet saying how many follow. A length of three octets loses its first. */
  function Head(tag: byte, length: nat): seq<byte> {
    if length < 0x80 then [tag, length]
    else if length < 0x100 then [tag, 0x81, length]
    else [tag, 0x82, length / 256 % 256, length % 256]
  }

  function Der(tag: byte, content: seq<byte>): seq<byte> { Head(tag, |content|) + content }

  /** Octets as a number, the first the highest. */
  function Octets(b: seq<byte>): nat {
    if b == [] then 0 else Octets(b[..|b| - 1]) * 256 + b[|b| - 1]
  }

  datatype Tlv = Tlv(tag: byte, content: seq<byte>, rest: seq<byte>)

  /** Any definite length, as section 8.1.3 of X.690 has it: also the ones that are longer than they need be. */
  function Read(b: seq<byte>): (r: Option<Tlv>)
    ensures r.Some? ==> |r.value.content| + |r.value.rest| < |b|
  {
    if |b| < 2 || b[1] == 0x80 then None
    else
      var more := if b[1] < 0x80 then 0 else b[1] - 0x80;
      if |b| < 2 + more then None
      else
        var length := if b[1] < 0x80 then b[1] else Octets(b[2..2 + more]);
        if |b| < 2 + more + length then None
        else Some(Tlv(b[0], b[2 + more..2 + more + length], b[2 + more + length..]))
  }

  lemma OneOctet(x: byte)
    ensures Octets([x]) == x
  {
    assert [x][..0] == [];
  }

  lemma TwoOctets(x: byte, y: byte)
    ensures Octets([x, y]) == x * 256 + y
  {
    assert [x, y][..1] == [x];
    OneOctet(x);
  }

  lemma LowOctets(length: nat)
    ensures Octets([length / 256 % 256, length % 256]) == length % 0x1_0000
  {
    TwoOctets(length / 256 % 256, length % 256);
    assert length / 256 % 256 * 256 + length % 256 == length % 0x1_0000;
  }

  /** How much of the content its length can say. */
  function Said(length: nat): (n: nat)
    ensures n <= length && (n == length <==> length < 0x1_0000)
  {
    if length < 0x100 then length else length % 0x1_0000
  }

  /** The length that is read of a head that was written. */
  lemma HeadReadsBack(tag: byte, length: nat, after: seq<byte>)
    requires |after| >= Said(length)
    ensures var head, n := Head(tag, length), Said(length);
      Read(head + after) == Some(Tlv(tag, (head + after)[|head|..|head| + n], (head + after)[|head| + n..]))
  {
    hide Octets;
    var head := Head(tag, length);
    var b := head + after;
    assert b[0] == tag && b[1] == head[1];
    if length >= 0x100 {
      LowOctets(length);
      assert b[2..4] == head[2..4] == [length / 256 % 256, length % 256];
    } else if length >= 0x80 {
      assert b[2..3] == [length as byte];
      OneOctet(length);
    }
  }

  /** What is read of what was written: the content cut to what the octets of the length can say. */
  lemma ReadOfDer(tag: byte, content: seq<byte>, rest: seq<byte>)
    ensures var n := Said(|content|);
      Read(Der(tag, content) + rest) == Some(Tlv(tag, content[..n], content[n..] + rest))
  {
    hide Read, Head, Said;
    var head := Head(tag, |content|);
    assert Der(tag, content) + rest == head + (content + rest) == head + content + rest;
    HeadReadsBack(tag, |content|, content + rest);
    Cut(head, content, rest, Said(|content|));
  }

  lemma Cut(head: seq<byte>, content: seq<byte>, rest: seq<byte>, n: nat)
    requires n <= |content|
    ensures var b := head + content + rest;
      b[|head|..|head| + n] == content[..n] && b[|head| + n..] == content[n..] + rest
  {
  }

  /** It reads back, whatever follows, exactly when its contents are shorter than 65536 octets. */
  lemma ReadsBackIff(tag: byte, content: seq<byte>, rest: seq<byte>)
    ensures Read(Der(tag, content) + rest) == Some(Tlv(tag, content, rest)) <==> |content| < 0x1_0000
  {
    hide Read, Der;
    ReadOfDer(tag, content, rest);
    if |content| < 0x1_0000 {
      assert content[..|content|] == content && content[|content|..] + rest == rest;
    }
  }

  lemma {:induction false} OctetsBound(b: seq<byte>)
    ensures Octets(b) < Pow(256, |b|)
  {
    if b != [] {
      OctetsBound(b[..|b| - 1]);
      ScaledBound(Octets(b[..|b| - 1]), Pow(256, |b| - 1), 256, b[|b| - 1]);
    }
  }

  /** No other encoding of the same contents is shorter (section 10.1). */
  lemma NothingIsShorter(tag: byte, content: seq<byte>, b: seq<byte>)
    requires |content| < 0x1_0000 && Read(b) == Some(Tlv(tag, content, []))
    ensures |b| >= |Der(tag, content)|
  {
    if b[1] > 0x80 {
      var more := b[1] - 0x80;
      OctetsBound(b[2..2 + more]);
      if more == 1 {
        assert Pow(256, 1) == 256 * Pow(256, 0);
      }
    }
  }

  lemma TwoOctetsAre(x: byte, y: byte, length: nat)
    requires x * 256 + y == length
    ensures x == length / 256 % 256 && y == length % 256
  {
  }

  /** And none is as short but the one that is written. */
  lemma NothingElseIsAsShort(tag: byte, content: seq<byte>, b: seq<byte>)
    requires |content| < 0x1_0000 && Read(b) == Some(Tlv(tag, content, [])) && |b| <= |Der(tag, content)|
    ensures b == Der(tag, content)
  {
    hide Octets;
    var more := if b[1] < 0x80 then 0 else b[1] - 0x80;
    NothingIsShorter(tag, content, b);
    assert b == b[..2 + more] + content;
    if more == 1 {
      assert b[2..3] == [b[2]];
      OneOctet(b[2]);
      assert b[..3] == [b[0], b[1], b[2]];
    } else if more == 2 {
      assert b[2..4] == [b[2], b[3]];
      TwoOctets(b[2], b[3]);
      TwoOctetsAre(b[2], b[3], |content|);
      assert b[..4] == [b[0], b[1], b[2], b[3]];
    } else {
      assert more == 0 && b[..2] == [b[0], b[1]];
    }
  }

  /* ── Nested encodings ────────────────────────────────────────────── */

  datatype Value = Primitive(tag: byte, content: seq<byte>) | Constructed(tag: byte, parts: seq<Value>)

  function Encode(v: Value): seq<byte>
    decreases v
  {
    match v
    case Primitive(tag, content) => Der(tag, content)
    case Constructed(tag, parts) => Der(tag, EncodeAll(parts))
  }

  function EncodeAll(parts: seq<Value>): seq<byte>
    decreases parts
  {
    if parts == [] then [] else Encode(parts[0]) + EncodeAll(parts[1..])
  }

  /** Bit 6 of the tag says whether the contents are encodings themselves. */
  predicate IsConstructed(tag: byte) { tag / 32 % 2 == 1 }

  function Parse(b: seq<byte>): Option<seq<Value>>
    decreases |b|
  {
    if b == [] then Some([])
    else
      var first := Read(b);
      if first.None? then None
      else
        var Tlv(tag, content, rest) := first.value;
        var value := if !IsConstructed(tag) then Some(Primitive(tag, content))
          else (var parts := Parse(content); if parts.None? then None else Some(Constructed(tag, parts.value)));
        var more := Parse(rest);
        if value.None? || more.None? then None else Some([value.value] + more.value)
  }

  predicate Encodable(v: Value)
    decreases v
  {
    match v
    case Primitive(tag, content) => !IsConstructed(tag) && |content| < 0x1_0000
    case Constructed(tag, parts) =>
      IsConstructed(tag) && |EncodeAll(parts)| < 0x1_0000 && forall p :: p in parts ==> Encodable(p)
  }

  /** Every nesting reads back as it was. */
  lemma {:induction false} NestingReadsBack(parts: seq<Value>)
    requires forall p :: p in parts ==> Encodable(p)
    ensures Parse(EncodeAll(parts)) == Some(parts)
    decreases parts
  {
    hide Read, Der;
    if parts != [] {
      var v, more := parts[0], EncodeAll(parts[1..]);
      assert v in parts;
      var content := if v.Primitive? then v.content else EncodeAll(v.parts);
      ReadsBackIff(v.tag, content, more);
      NotEmpty(v.tag, content, more);
      if v.Constructed? {
        NestingReadsBack(v.parts);
      }
      NestingReadsBack(parts[1..]);
      assert parts == [v] + parts[1..];
      assert EncodeAll(parts) == Der(v.tag, content) + more;
    }
  }

  lemma NotEmpty(tag: byte, content: seq<byte>, rest: seq<byte>)
    ensures Der(tag, content) + rest != []
  {
  }

  /* ── INTEGER ─────────────────────────────────────────────────────── */

  function WithoutZeros(b: seq<byte>): (v: seq<byte>)
    ensures |v| <= |b| && (b != [] ==> v != [] && (|v| == 1 || v[0] != 0))
  {
    if |b| > 1 && b[0] == 0 then WithoutZeros(b[1..]) else b
  }

  function IntegerOctets(b: seq<byte>): seq<byte> {
    var v := WithoutZeros(b);
    if v != [] && v[0] >= 0x80 then [0] + v else v
  }

  lemma {:induction false} LeadingZeros(b: seq<byte>, start: nat)
    requires start <= |b| && forall i :: 0 <= i < start ==> b[i] == 0
    requires start == |b| == 0 || (start < |b| && (start == |b| - 1 || b[start] != 0))
    ensures WithoutZeros(b) == b[start..]
    decreases start
  {
    if start > 0 {
      assert b[1..][start - 1..] == b[start..];
      LeadingZeros(b[1..], start - 1);
    }
  }

  method Integer(bytes: seq<byte>) returns (encoded: seq<byte>)
    ensures encoded == Der(INTEGER, IntegerOctets(bytes))
  {
    var start := 0;
    while start < |bytes| - 1 && bytes[start] == 0
      invariant 0 <= start <= |bytes| && (start == |bytes| ==> bytes == [])
      invariant forall i :: 0 <= i < start ==> bytes[i] == 0
    {
      start := start + 1;
    }
    LeadingZeros(bytes, start);
    var value := bytes[start..];
    if value != [] && value[0] >= 0x80 { value := [0] + value; }
    encoded := Der(INTEGER, value);
  }

  /** Two's complement, the first bit the sign (section 8.3.3). */
  function Signed(b: seq<byte>): int
    requires b != []
  {
    if b[0] < 0x80 then Octets(b) else Octets(b) - Pow(256, |b|)
  }

  lemma {:induction false} FirstOctet(b: seq<byte>)
    requires b != []
    ensures Octets(b) == b[0] * Pow(256, |b| - 1) + Octets(b[1..])
    decreases |b|
  {
    if |b| == 1 {
      assert b[..0] == [] && b[1..] == [];
    } else {
      var front := b[..|b| - 1];
      FirstOctet(front);
      assert front[1..] == b[1..][..|b| - 2];
      assert b[1..][|b| - 2] == b[|b| - 1];
      Distribute(b[0], Pow(256, |b| - 2), Octets(front[1..]));
    }
  }

  lemma Distribute(a: nat, p: nat, c: nat)
    ensures (a * p + c) * 256 == a * (256 * p) + c * 256
  {
  }

  lemma {:induction false} ZerosAreNothing(b: seq<byte>)
    ensures Octets(WithoutZeros(b)) == Octets(b)
  {
    hide Octets;
    if |b| > 1 && b[0] == 0 {
      FirstOctet(b);
      ZerosAreNothing(b[1..]);
    }
  }

  /** The number it was given, and not negative (section 8.3), whatever non-empty octets they were. */
  lemma IntegerKeepsItsValue(b: seq<byte>)
    ensures IntegerOctets(b) != [] <==> b != []
    ensures b != [] ==> Signed(IntegerOctets(b)) == Octets(b)
  {
    hide Octets;
    if b != [] {
      ZerosAreNothing(b);
      var v := WithoutZeros(b);
      if v[0] >= 0x80 {
        FirstOctet([0] + v);
        assert ([0] + v)[1..] == v;
      }
    }
  }

  lemma AtLeast(b: seq<byte>, half: nat)
    requires |b| >= 2 && half == Pow(256, |b| - 2) && (b[0] != 0 || b[1] >= 0x80)
    ensures Octets(b) >= 0x80 * half
  {
    hide Octets;
    FirstOctet(b);
    FirstOctet(b[1..]);
    assert Pow(256, |b| - 1) == 256 * half;
    if b[0] != 0 {
      MulMonotone(1, b[0], 256 * half);
    } else {
      MulMonotone(0x80, b[1], half);
    }
  }

  lemma LessThan(b: seq<byte>)
    requires b != [] && b[0] < 0x80
    ensures Octets(b) < 0x80 * Pow(256, |b| - 1)
  {
    hide Octets;
    FirstOctet(b);
    OctetsBound(b[1..]);
    MulMonotone(b[0] + 1, 0x80, Pow(256, |b| - 1));
    assert (b[0] + 1) * Pow(256, |b| - 1) == b[0] * Pow(256, |b| - 1) + Pow(256, |b| - 1);
  }

  lemma {:induction false} PowMonotone(m: nat, n: nat)
    requires m <= n
    ensures Pow(256, m) <= Pow(256, n)
    decreases n
  {
    if m < n {
      PowMonotone(m, n - 1);
    }
  }

  /** No shorter octets stand for the same number (section 8.3.2). */
  lemma IntegerIsShortest(b: seq<byte>, other: seq<byte>)
    requires b != [] && other != [] && Signed(other) == Octets(b)
    ensures |other| >= |IntegerOctets(b)|
  {
    hide Octets, Pow;
    var v := IntegerOctets(b);
    IntegerKeepsItsValue(b);
    OctetsBound(other);
    assert other[0] < 0x80 && v[0] < 0x80;
    if |v| > |other| {
      AtLeast(v, Pow(256, |v| - 2));
      LessThan(other);
      PowMonotone(|other| - 1, |v| - 2);
    }
  }

  /* ── OBJECT IDENTIFIER ───────────────────────────────────────────── */

  /** JavaScript's bit operators work on 32 bits, the first of them the sign. */
  function ToInt32(v: nat): int {
    var low := v % 0x1_0000_0000;
    if low < 0x8000_0000 then low else low - 0x1_0000_0000
  }

  /** All groups but the last: seven bits each, the eighth saying that more follow. */
  function HighGroups(v: int): seq<byte>
    decreases v
  {
    if v <= 0 then [] else HighGroups(v / 128) + [v % 128 + 128]
  }

  function ArcOctets(arc: nat): seq<byte> { HighGroups(ToInt32(arc) / 128) + [arc % 128] }

  function ArcsOctets(arcs: seq<nat>): seq<byte> {
    if arcs == [] then [] else ArcOctets(arcs[0]) + ArcsOctets(arcs[1..])
  }

  /** The first two arcs are one octet. */
  function OidOctets(first: nat, second: nat, rest: seq<nat>): seq<byte> {
    [(first * 40 + second) % 256] + ArcsOctets(rest)
  }

  lemma {:induction false} ArcsPush(arcs: seq<nat>, arc: nat)
    ensures ArcsOctets(arcs + [arc]) == ArcsOctets(arcs) + ArcOctets(arc)
  {
    hide ArcOctets;
    if arcs == [] {
      assert (arcs + [arc])[1..] == [];
    } else {
      assert (arcs + [arc])[1..] == arcs[1..] + [arc];
      ArcsPush(arcs[1..], arc);
    }
  }

  method Oid(first: nat, second: nat, rest: seq<nat>) returns (encoded: seq<byte>)
    ensures encoded == Der(OBJECT_IDENTIFIER, OidOctets(first, second, rest))
  {
    hide ArcsOctets, ToInt32;
    var bytes: seq<byte> := [(first * 40 + second) % 256];
    var i := 0;
    assert ArcsOctets(rest[..0]) == [] by { NoArcs(); }
    while i < |rest|
      invariant 0 <= i <= |rest|
      invariant bytes == [(first * 40 + second) % 256] + ArcsOctets(rest[..i])
    {
      var groups: seq<byte> := [rest[i] % 128];
      var value := ToInt32(rest[i]) / 128;
      while value > 0
        invariant HighGroups(value) + groups == ArcOctets(rest[i])
        decreases value
      {
        groups := [value % 128 + 128] + groups;
        value := value / 128;
      }
      assert rest[..i + 1] == rest[..i] + [rest[i]];
      ArcsPush(rest[..i], rest[i]);
      bytes := bytes + groups;
      i := i + 1;
    }
    assert rest[..i] == rest;
    encoded := Der(OBJECT_IDENTIFIER, bytes);
  }

  lemma NoArcs()
    ensures ArcsOctets([]) == []
  {
  }

  datatype Arc = Arc(value: nat, rest: seq<byte>)

  /** One number in base 128 (section 8.19.2). */
  function ReadArc(b: seq<byte>, high: nat): (r: Option<Arc>)
    ensures r.Some? ==> |r.value.rest| < |b|
    decreases |b|
  {
    if b == [] then None
    else if b[0] < 128 then Some(Arc(high * 128 + b[0], b[1..]))
    else ReadArc(b[1..], high * 128 + (b[0] - 128))
  }

  function ReadArcs(b: seq<byte>): Option<seq<nat>>
    decreases |b|
  {
    if b == [] then Some([])
    else
      var first := ReadArc(b, 0);
      if first.None? then None
      else
        var more := ReadArcs(first.value.rest);
        if more.None? then None else Some([first.value.value] + more.value)
  }

  lemma InGroups(v: int)
    requires v > 0
    ensures 0 <= v / 128 < v && v / 128 * 128 + v % 128 == v
  {
  }

  lemma {:induction false} HighRead(v: int, after: seq<byte>)
    ensures ReadArc(HighGroups(v) + after, 0) == ReadArc(after, Max(v, 0))
    decreases v
  {
    if v <= 0 {
      assert HighGroups(v) + after == after;
    } else {
      InGroups(v);
      var group: byte, high := v % 128 + 128, HighGroups(v / 128);
      assert HighGroups(v) + after == high + ([group] + after);
      HighRead(v / 128, [group] + after);
      OneGroup(group, after, v / 128);
    }
  }

  lemma OneGroup(group: byte, after: seq<byte>, high: nat)
    requires group >= 128
    ensures ReadArc([group] + after, high) == ReadArc(after, high * 128 + (group - 128))
  {
    assert ([group] + after)[1..] == after;
  }

  /** What an arc reads back as: itself, while it is within 31 bits. */
  function ArcRead(arc: nat): nat { Max(ToInt32(arc) / 128, 0) * 128 + arc % 128 }

  lemma ArcReadsBack(arc: nat, after: seq<byte>)
    ensures ReadArc(ArcOctets(arc) + after, 0) == Some(Arc(ArcRead(arc), after))
    ensures ArcRead(arc) == arc <==> arc < 0x8000_0000
  {
    HighRead(ToInt32(arc) / 128, [arc % 128] + after);
    assert ArcOctets(arc) + after == HighGroups(ToInt32(arc) / 128) + ([arc % 128] + after);
    assert ([arc % 128] + after)[1..] == after;
    InRange(arc);
  }

  lemma InRange(arc: nat)
    ensures ArcRead(arc) == arc <==> arc < 0x8000_0000
  {
    var v := ToInt32(arc);
    assert v < 0x8000_0000;
    if arc < 0x8000_0000 {
      assert v == arc && v / 128 * 128 + v % 128 == v;
    } else {
      assert v / 128 < 0x100_0000;
      assert ArcRead(arc) < 0x8000_0000;
    }
  }

  predicate InRangeAll(arcs: seq<nat>) { forall i :: 0 <= i < |arcs| ==> arcs[i] < 0x8000_0000 }

  lemma {:induction false} ArcsReadBack(arcs: seq<nat>) returns (back: seq<nat>)
    ensures ReadArcs(ArcsOctets(arcs)) == Some(back) && |back| == |arcs|
    ensures back == arcs <==> InRangeAll(arcs)
  {
    hide ArcOctets, ReadArc, ArcRead;
    if arcs == [] {
      back := [];
    } else {
      ArcReadsBack(arcs[0], ArcsOctets(arcs[1..]));
      NotNothing(arcs[0], ArcsOctets(arcs[1..]));
      var more := ArcsReadBack(arcs[1..]);
      back := [ArcRead(arcs[0])] + more;
      assert arcs == [arcs[0]] + arcs[1..] && back[0] == ArcRead(arcs[0]) && back[1..] == more;
      assert InRangeAll(arcs) <==> arcs[0] < 0x8000_0000 && InRangeAll(arcs[1..]);
    }
  }

  lemma NotNothing(arc: nat, after: seq<byte>)
    ensures ArcOctets(arc) + after != []
  {
  }

  /** The octets that end a number: as many as there are numbers to read. */
  function Ends(b: seq<byte>): nat { if b == [] then 0 else Ends(b[1..]) + if b[0] < 128 then 1 else 0 }

  lemma {:induction false} ArcEndsOnce(b: seq<byte>, high: nat)
    ensures var r := ReadArc(b, high); r.Some? ==> Ends(b) == Ends(r.value.rest) + 1
    decreases |b|
  {
    if b != [] && b[0] >= 128 {
      ArcEndsOnce(b[1..], high * 128 + (b[0] - 128));
    }
  }

  lemma {:induction false} AsManyAsEnd(b: seq<byte>)
    ensures var r := ReadArcs(b); r.Some? ==> |r.value| == Ends(b)
    decreases |b|
  {
    hide ReadArc;
    if b != [] {
      ArcEndsOnce(b, 0);
      var first := ReadArc(b, 0);
      if first.Some? {
        AsManyAsEnd(first.value.rest);
      }
    }
  }

  /** An identifier reads back exactly when its first octet needs no second, and its arcs are within 31 bits. */
  lemma OidReadsBackIff(first: nat, second: nat, rest: seq<nat>)
    ensures ReadArcs(OidOctets(first, second, rest)) == Some([first * 40 + second] + rest)
       <==> first * 40 + second < 128 && InRangeAll(rest)
  {
    hide ArcsOctets, ReadArcs;
    var top, octets := first * 40 + second, ArcsOctets(rest);
    var head: byte := top % 256;
    var back := ArcsReadBack(rest);
    assert ([head] + octets)[1..] == octets;
    if head < 128 {
      FirstArc(head, octets);
      assert ([top] + rest)[0] == top && ([top] + rest)[1..] == rest && ([head as nat] + back)[1..] == back;
    } else {
      AsManyAsEnd(octets);
      AsManyAsEnd([head] + octets);
    }
  }

  lemma FirstArc(head: byte, octets: seq<byte>)
    requires head < 128
    ensures ReadArcs(octets).Some? ==> ReadArcs([head] + octets) == Some([head as nat] + ReadArcs(octets).value)
  {
    assert ([head] + octets)[1..] == octets;
  }

  /** No group that says nothing leads an arc (section 8.19.2). */
  lemma {:induction false} NoEmptyGroupLeads(v: int)
    requires v > 0
    ensures HighGroups(v)[0] != 128
    decreases v
  {
    if v / 128 > 0 {
      NoEmptyGroupLeads(v / 128);
    }
  }

  lemma ArcHasNoPadding(arc: nat)
    ensures ArcOctets(arc)[0] != 128
  {
    if ToInt32(arc) / 128 > 0 {
      NoEmptyGroupLeads(ToInt32(arc) / 128);
      assert ArcOctets(arc)[0] == HighGroups(ToInt32(arc) / 128)[0];
    }
  }
}
