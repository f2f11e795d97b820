/** Bytes, text as bytes, and the outcomes the agent's functions answer with. */
module Bytes {

  type byte = x: int | 0 <= x < 256

  datatype Option<+T> = None | Some(value: T)

  datatype Result<+T, +E> = Ok(value: T) | Err(error: E)

  const NUL: byte := 0
  const LF: byte := 10
  const CR: byte := 13
  const SPACE: byte := 32
  const DOT: byte := 46
  const SLASH: byte := 47
  const ZERO: byte := 48
  const EQUALS: byte := 61
  const BACKSLASH: byte := 92

  function Repeat(b: byte, n: nat): (s: seq<byte>)
    ensures |s| == n && forall i :: 0 <= i < n ==> s[i] == b
  {
    seq(n, i => b)
  }

  function Zeros(n: nat): (s: seq<byte>)
    ensures |s| == n && forall i :: 0 <= i < n ==> s[i] == 0
  {
    Repeat(0, n)
  }

  /** What a list of chunks holds, end to end. */
  function Concat(chunks: seq<seq<byte>>): seq<byte> {
    if chunks == [] then [] else chunks[0] + Concat(chunks[1..])
  }

  lemma {:induction false} ConcatSplit(a: seq<seq<byte>>, b: seq<seq<byte>>)
    ensures Concat(a + b) == Concat(a) + Concat(b)
  {
    if a == [] {
      assert a + b == b;
    } else {
      assert (a + b)[1..] == a[1..] + b;
      ConcatSplit(a[1..], b);
    }
  }

  lemma ConcatPush(a: seq<seq<byte>>, chunk: seq<byte>)
    ensures Concat(a + [chunk]) == Concat(a) + chunk
  {
    ConcatSplit(a, [chunk]);
    assert Concat([chunk]) == chunk + Concat([]);
  }

  lemma ConcatNone(chunks: seq<seq<byte>>)
    ensures Concat(chunks[..0]) == []
  {
  }

  function Min(a: int, b: int): int { if a <= b then a else b }

  function Max(a: int, b: int): int { if a <= b then b else a }

  function Pow(base: nat, n: nat): (p: nat)
    ensures base >= 1 ==> p >= 1
  {
    if n == 0 then 1 else base * Pow(base, n - 1)
  }

  /* ── Numbers as text ─────────────────────────────────────────────── */

  predicate IsDigit(b: byte, base: nat) { 48 <= b < 48 + base }

  predicate AllDigits(text: seq<byte>, base: nat) {
    forall i :: 0 <= i < |text| ==> IsDigit(text[i], base)
  }

  /** A number's digits, as Number.prototype.toString(base) writes it. */
  function Digits(v: nat, base: nat): (text: seq<byte>)
    requires 2 <= base <= 10
    ensures |text| >= 1 && AllDigits(text, base)
    decreases v
  {
    if v < base then [48 + v] else Digits(v / base, base) + [48 + v % base]
  }

  function Value(text: seq<byte>, base: nat): (v: nat)
    requires AllDigits(text, base)
  {
    if text == [] then 0 else Value(text[..|text| - 1], base) * base + (text[|text| - 1] - 48)
  }

  lemma DivMod(v: nat, base: nat)
    requires base >= 2
    ensures v == (v / base) * base + v % base
    ensures v > 0 ==> v / base < v
  {
  }

  lemma MulMonotone(a: int, b: int, c: nat)
    requires a <= b
    ensures a * c <= b * c
  {
  }

  lemma {:induction false} ValueOfDigits(v: nat, base: nat)
    requires 2 <= base <= 10
    ensures Value(Digits(v, base), base) == v
    decreases v
  {
    var text := Digits(v, base);
    if v < base {
      assert text[..|text| - 1] == [];
    } else {
      DivMod(v, base);
      var q, d := v / base, v % base;
      assert text == Digits(q, base) + [48 + d];
      assert text[..|text| - 1] == Digits(q, base);
      ValueOfDigits(q, base);
      assert Value(text, base) == q * base + d;
    }
  }

  lemma ScaledBound(v: nat, p: nat, base: nat, d: nat)
    requires v < p && d < base
    ensures v * base + d < base * p
  {
    MulMonotone(v + 1, p, base);
    assert (v + 1) * base == v * base + base;
  }

  lemma {:induction false} ValueBound(text: seq<byte>, base: nat)
    requires 2 <= base <= 10 && AllDigits(text, base)
    ensures Value(text, base) < Pow(base, |text|)
    decreases |text|
  {
    if text != [] {
      var front := text[..|text| - 1];
      ValueBound(front, base);
      ScaledBound(Value(front, base), Pow(base, |front|), base, text[|text| - 1] - 48);
    }
  }

  lemma {:induction false} DigitsLength(v: nat, base: nat, n: nat)
    requires 2 <= base <= 10 && n >= 1
    ensures |Digits(v, base)| <= n <==> v < Pow(base, n)
    decreases v
  {
    if v < base {
      PowGrows(base, n);
    } else {
      DivMod(v, base);
      var q := v / base;
      if n == 1 {
        assert Pow(base, 1) == base * Pow(base, 0);
        assert |Digits(v, base)| == |Digits(q, base)| + 1;
      } else {
        DigitsLength(q, base, n - 1);
        assert |Digits(v, base)| == |Digits(q, base)| + 1;
        DigitsStep(v, base, Pow(base, n - 1));
      }
    }
  }

  lemma DigitsStep(v: nat, base: nat, p: nat)
    requires base >= 2
    ensures v / base < p <==> v < base * p
  {
    DivMod(v, base);
    var q := v / base;
    if q < p {
      ScaledBound(q, p, base, v % base);
    } else {
      MulMonotone(p, q, base);
    }
  }

  lemma {:induction false} PowGrows(base: nat, n: nat)
    requires base >= 2 && n >= 1
    ensures Pow(base, n) >= base
  {
    var p := Pow(base, n - 1);
    assert base * p >= base * 1;
  }

  /** String.prototype.padStart with "0". */
  function PadStart(text: seq<byte>, width: nat): (padded: seq<byte>)
    ensures |padded| == Max(|text|, width)
  {
    if |text| >= width then text else Repeat(ZERO, width - |text|) + text
  }

  lemma {:induction false} ValueOfPadded(zeros: nat, text: seq<byte>, base: nat)
    requires 2 <= base <= 10 && AllDigits(text, base)
    ensures AllDigits(Repeat(ZERO, zeros) + text, base)
    ensures Value(Repeat(ZERO, zeros) + text, base) == Value(text, base)
    decreases zeros + |text|
  {
    var all := Repeat(ZERO, zeros) + text;
    if text != [] {
      assert all[..|all| - 1] == Repeat(ZERO, zeros) + text[..|text| - 1];
      ValueOfPadded(zeros, text[..|text| - 1], base);
    } else if zeros > 0 {
      assert all[..|all| - 1] == Repeat(ZERO, zeros - 1) + text;
      ValueOfPadded(zeros - 1, text, base);
    } else {
      assert all == [];
    }
  }

  /** The digits a text begins with. */
  function DigitPrefix(s: seq<byte>, base: nat): (digits: seq<byte>)
    ensures AllDigits(digits, base)
  {
    if s != [] && IsDigit(s[0], base) then [s[0]] + DigitPrefix(s[1..], base) else []
  }

  lemma {:induction false} DigitPrefixOfDigits(s: seq<byte>, base: nat)
    requires AllDigits(s, base)
    ensures DigitPrefix(s, base) == s
  {
    if s != [] {
      DigitPrefixOfDigits(s[1..], base);
    }
  }

  lemma {:induction false} RunOfDigits(digits: seq<byte>, after: seq<byte>, base: nat)
    requires AllDigits(digits, base) && (after == [] || !IsDigit(after[0], base))
    ensures DigitPrefix(digits + after, base) == digits
    decreases |digits|
  {
    if digits == [] {
      assert digits + after == after;
    } else {
      assert (digits + after)[1..] == digits[1..] + after;
      RunOfDigits(digits[1..], after, base);
    }
  }

  /* ── Text ────────────────────────────────────────────────────────── */

  function IndexOf(s: seq<byte>, b: byte, from: nat): (at: int)
    requires from <= |s|
    ensures at == -1 || (from <= at < |s| && s[at] == b)
    ensures forall i :: from <= i < (if at == -1 then |s| else at) ==> s[i] != b
    decreases |s| - from
  {
    if from == |s| then -1 else if s[from] == b then from else IndexOf(s, b, from + 1)
  }

  /** String.prototype.split with a one-byte separator. */
  function Split(s: seq<byte>, sep: byte): (parts: seq<seq<byte>>)
    ensures |parts| >= 1
  {
    var at := IndexOf(s, sep, 0);
    if at == -1 then [s] else [s[..at]] + Split(s[at + 1..], sep)
  }

  /** Array.prototype.join with a one-byte separator. */
  function Join(parts: seq<seq<byte>>, sep: byte): seq<byte> {
    if parts == [] then []
    else if |parts| == 1 then parts[0]
    else parts[0] + [sep] + Join(parts[1..], sep)
  }

  lemma {:induction false} SplitJoin(parts: seq<seq<byte>>, sep: byte)
    requires parts != [] && forall p :: p in parts ==> sep !in p
    ensures Split(Join(parts, sep), sep) == parts
    decreases |parts|
  {
    var s := Join(parts, sep);
    if |parts| == 1 {
      assert sep !in parts[0];
    } else {
      assert parts[0] in parts;
      assert s[|parts[0]|] == sep;
      var at := IndexOf(s, sep, 0);
      assert at == |parts[0]| by {
        assert forall i :: 0 <= i < |parts[0]| ==> s[i] == parts[0][i];
      }
      assert s[..at] == parts[0] && s[at + 1..] == Join(parts[1..], sep);
      SplitJoin(parts[1..], sep);
    }
  }
}
