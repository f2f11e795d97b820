/** The blocks of an archive: one USTAR header, the PAX record that carries a long path,
    and the two functions that read them back. Texts are their UTF-8 bytes. */
module TarFormat {
  import opened Bytes

  const BLOCK: nat := 512
  const NAME_FIELD: nat := 100
  const MAX_METADATA_BYTES: nat := 1024 * 1024

  const TYPE_FILE: byte := 48        // "0"
  const TYPE_DIRECTORY: byte := 53   // "5"
  const TYPE_PAX: byte := 120        // "x"
  const TYPE_GLOBAL: byte := 103     // "g"
  const TYPE_LONG_NAME: byte := 76   // "L"

  const USTAR: seq<byte> := [117, 115, 116, 97, 114]
  const PATH_KEY: seq<byte> := [112, 97, 116, 104]
  // "././@PaxHeader"
  const PAX_NAME: seq<byte> := [46, 47, 46, 47, 64, 80, 97, 120, 72, 101, 97, 100, 101, 114]

  datatype Malformed = MalformedExtendedHeader

  /* ── Writing ─────────────────────────────────────────────────────── */

  /** A number in octal, padded and closed with a NUL; a negative one keeps its sign as toString writes it. */
  function Octal(value: int, width: nat): seq<byte> {
    PadStart(if value < 0 then [45] + Digits(-value, 8) else Digits(value, 8), width) + [NUL]
  }

  /** A text in a field of `width` bytes that began as zeros. */
  function Field(text: seq<byte>, width: nat): (f: seq<byte>)
    ensures |f| == width
  {
    if |text| >= width then text[..width] else text + Zeros(width - |text|)
  }

  predicate IsContinuation(b: byte) { 0x80 <= b < 0xC0 }

  /** Where Buffer.write stops in a text that does not fit: never inside a character. */
  function Boundary(text: seq<byte>, k: nat): (fit: nat)
    requires k < |text|
    ensures fit <= k
  {
    if k > 0 && IsContinuation(text[k]) then Boundary(text, k - 1) else k
  }

  function FitName(name: seq<byte>): (fit: seq<byte>)
    ensures |fit| <= NAME_FIELD
  {
    if |name| <= NAME_FIELD then name else name[..Boundary(name, NAME_FIELD)]
  }

  /** What is true of every UTF-8 text: no character has more than three continuation bytes, and none comes first. */
  predicate Utf8Shaped(s: seq<byte>) {
    forall i :: 0 <= i < |s| && IsContinuation(s[i]) ==> HasStart(s, i)
  }

  predicate HasStart(s: seq<byte>, i: nat)
    requires i < |s|
  {
    exists j :: Max(0, i - 3) <= j < i && !IsContinuation(s[j])
  }

  function Sum(s: seq<byte>): (total: nat)
    ensures total <= 255 * |s|
  {
    if s == [] then 0 else Sum(s[..|s| - 1]) + s[|s| - 1]
  }

  function Head(name: seq<byte>, size: nat, mode: nat, mtime: int): (h: seq<byte>)
    ensures |h| == 148
  {
    Field(FitName(name), NAME_FIELD)
    + Field(Octal(mode % 4096, 7), 8)
    + Field(Octal(0, 7), 8)
    + Field(Octal(0, 7), 8)
    + Field(Octal(size, 11), 12)
    + Field(Octal(mtime, 11), 12)
  }

  function Tail(kind: byte): (t: seq<byte>)
    ensures |t| == 356
  {
    [kind] + Zeros(100) + (USTAR + [NUL]) + [ZERO, ZERO] + Zeros(247)
  }

  function ChecksumField(sum: nat): (field: seq<byte>)
    ensures |field| == 8
  {
    Field(PadStart(Digits(sum, 8), 6) + [NUL, SPACE], 8)
  }

  /** A header block, field by field, as the ustar Interchange Format lays it out. */
  function HeaderBlock(name: seq<byte>, size: nat, kind: byte, mode: nat, mtime: int): (block: seq<byte>)
    ensures |block| == BLOCK
  {
    var head, tail := Head(name, size, mode, mtime), Tail(kind);
    head + ChecksumField(Sum(head + Repeat(SPACE, 8) + tail)) + tail
  }

  /** Buffer.write: as much of the text as the field holds, over what was there. */
  method WriteAt(block: array<byte>, text: seq<byte>, at: nat, width: nat)
    requires at + width <= block.Length
    modifies block
    ensures block[..] == old(block[..at]) + text[..Min(|text|, width)] + old(block[at + Min(|text|, width)..])
  {
    var n := Min(|text|, width);
    var i := 0;
    while i < n
      invariant 0 <= i <= n
      invariant forall k :: 0 <= k < i ==> block[at + k] == text[k]
      invariant forall k :: 0 <= k < block.Length && !(at <= k < at + i) ==> block[k] == old(block[k])
    {
      block[at + i] := text[i];
      i := i + 1;
    }
  }

  /** The same write, into the zeros that follow what has been written so far. */
  method WriteField(block: array<byte>, at: nat, text: seq<byte>, width: nat, ghost before: seq<byte>)
    requires at == |before| && at + width <= block.Length
    requires block[..] == before + Zeros(block.Length - at)
    modifies block
    ensures block[..] == before + Field(text, width) + Zeros(block.Length - at - width)
  {
    hide Field, Zeros;
    WriteAt(block, text, at, width);
    FieldWritten(before, text, width, block.Length - at);
  }

  lemma FieldWritten(before: seq<byte>, text: seq<byte>, width: nat, left: nat)
    requires width <= left
    ensures var was, n := before + Zeros(left), Min(|text|, width);
      was[..|before|] + text[..n] + was[|before| + n..] == before + Field(text, width) + Zeros(left - width)
  {
    var was, n := before + Zeros(left), Min(|text|, width);
    assert was[..|before|] == before;
    assert was[|before| + n..] == Zeros(left - n);
    assert Zeros(left - n) == Zeros(width - n) + Zeros(left - width);
    assert text[..n] + Zeros(width - n) == Field(text, width);
  }

  /** One header block, filled in place; the checksum is taken with its own field read as spaces. */
  method Header(name: seq<byte>, size: nat, kind: byte, mode: nat, mtime: int) returns (block: array<byte>)
    ensures fresh(block) && block[..] == HeaderBlock(name, size, kind, mode, mtime)
  {
    hide Digits, PadStart, Sum;
    block := new byte[BLOCK](i => 0);
    assert block[..] == Zeros(BLOCK);
    WriteHead(block, name, size, mode, mtime);
    ghost var head, tail := Head(name, size, mode, mtime), Tail(kind);
    WriteBlank(block, head, kind);
    var sum := SumOf(block);
    var text := PadStart(Digits(sum, 8), 6) + [NUL, SPACE];
    assert block[..148] == head && block[156..] == tail;
    WriteAt(block, text, 148, 8);
    assert text[..8] == ChecksumField(sum);
  }

  method SumOf(block: array<byte>) returns (sum: nat)
    ensures sum == Sum(block[..])
  {
    sum := 0;
    var i := 0;
    while i < block.Length
      invariant 0 <= i <= block.Length
      invariant sum == Sum(block[..i])
    {
      assert block[..i + 1][..i] == block[..i];
      sum := sum + block[i];
      i := i + 1;
    }
    assert block[..block.Length] == block[..];
  }

  /** The first half of a header: the name and the numbers before the checksum. */
  method WriteHead(block: array<byte>, name: seq<byte>, size: nat, mode: nat, mtime: int)
    requires block.Length == BLOCK && block[..] == Zeros(BLOCK)
    modifies block
    ensures block[..] == Head(name, size, mode, mtime) + Zeros(BLOCK - 148)
  {
    hide Octal, FitName, Field;
    assert block[..] == [] + Zeros(BLOCK);
    ghost var w := [];
    WriteField(block, 0, FitName(name), 100, w);
    w := w + Field(FitName(name), 100);
    WriteField(block, 100, Octal(mode % 4096, 7), 8, w);
    w := w + Field(Octal(mode % 4096, 7), 8);
    WriteField(block, 108, Octal(0, 7), 8, w);
    w := w + Field(Octal(0, 7), 8);
    WriteField(block, 116, Octal(0, 7), 8, w);
    w := w + Field(Octal(0, 7), 8);
    WriteField(block, 124, Octal(size, 11), 12, w);
    w := w + Field(Octal(size, 11), 12);
    WriteField(block, 136, Octal(mtime, 11), 12, w);
    w := w + Field(Octal(mtime, 11), 12);
    assert w == Head(name, size, mode, mtime);
  }

  /** The second half of a header: the checksum's spaces, the type and the format's name. */
  method WriteBlank(block: array<byte>, ghost head: seq<byte>, kind: byte)
    requires block.Length == BLOCK && |head| == 148
    requires block[..] == head + Zeros(BLOCK - 148)
    modifies block
    ensures block[..] == head + Repeat(SPACE, 8) + Tail(kind)
  {
    ghost var w := head;
    WriteField(block, 148, Repeat(SPACE, 8), 8, w);
    w := w + Repeat(SPACE, 8);
    assert Field(Repeat(SPACE, 8), 8) == Repeat(SPACE, 8);
    WriteField(block, 156, [kind], 1, w);
    w := w + [kind] + Zeros(100);
    assert Field([kind], 1) == [kind];
    assert Zeros(355) == Zeros(100) + Zeros(255);
    WriteField(block, 257, USTAR + [NUL], 6, w);
    w := w + (USTAR + [NUL]);
    assert Field(USTAR + [NUL], 6) == USTAR + [NUL];
    WriteField(block, 263, [ZERO, ZERO], 2, w);
    assert Field([ZERO, ZERO], 2) == [ZERO, ZERO];
    assert w + [ZERO, ZERO] + Zeros(247) == head + Repeat(SPACE, 8) + Tail(kind);
  }

  /* ── Reading ─────────────────────────────────────────────────────── */

  /** What `.` does not match in a JavaScript pattern. */
  predicate HasLineBreak(s: seq<byte>) {
    exists i :: 0 <= i < |s| && LineBreakAt(s, i)
  }

  predicate LineBreakAt(s: seq<byte>, i: nat)
    requires i < |s|
  {
    s[i] == LF || s[i] == CR
    || (i + 2 < |s| && s[i] == 0xE2 && s[i + 1] == 0x80 && (s[i + 2] == 0xA8 || s[i + 2] == 0xA9))
  }

  /** replace(/\0.*$/, ""): cut at the first NUL that no line break follows. */
  function CutAtNul(s: seq<byte>): (cut: seq<byte>)
    ensures cut <= s
  {
    if s == [] || (s[0] == NUL && !HasLineBreak(s[1..])) then [] else [s[0]] + CutAtNul(s[1..])
  }

  /** replace(/\0[\s\S]*$/, ""): cut at the first NUL. */
  function CutAtFirstNul(s: seq<byte>): seq<byte> {
    var at := IndexOf(s, NUL, 0);
    if at == -1 then s else s[..at]
  }

  /** Buffer.toString("ascii") reads seven bits of each byte. */
  function Ascii(s: seq<byte>): (text: seq<byte>)
    ensures |text| == |s|
  {
    seq(|s|, i requires 0 <= i < |s| => s[i] % 128)
  }

  predicate IsBlank(b: byte) { 9 <= b <= 13 || b == SPACE }

  function TrimStart(s: seq<byte>): seq<byte> {
    if s != [] && IsBlank(s[0]) then TrimStart(s[1..]) else s
  }

  function TrimEnd(s: seq<byte>): seq<byte> {
    if s != [] && IsBlank(s[|s| - 1]) then TrimEnd(s[..|s| - 1]) else s
  }

  /** parseInt(text, 8) || 0. */
  function ParseOctal(text: seq<byte>): int {
    var s := TrimStart(text);
    if s != [] && s[0] == 45 then 0 - (Value(DigitPrefix(s[1..], 8), 8) as int)
    else if s != [] && s[0] == 43 then Value(DigitPrefix(s[1..], 8), 8)
    else Value(DigitPrefix(s, 8), 8)
  }

  function NameOf(block: seq<byte>): seq<byte>
    requires |block| == BLOCK
  {
    CutAtNul(block[..100])
  }

  /** A number field: parseInt of its text, cut and trimmed. */
  function ReadSize(field: seq<byte>): int { ParseOctal(TrimEnd(TrimStart(CutAtNul(Ascii(field))))) }

  function SizeOf(block: seq<byte>): int
    requires |block| == BLOCK
  {
    ReadSize(block[124..136])
  }

  function KindOf(block: seq<byte>): byte
    requires |block| == BLOCK
  {
    block[156] % 128
  }

  predicate IsUstar(block: seq<byte>)
    requires |block| == BLOCK
  {
    Ascii(block[257..262]) == USTAR
  }

  function PrefixOf(block: seq<byte>): seq<byte>
    requires |block| == BLOCK
  {
    CutAtNul(block[345..500])
  }

  /** The padding of a payload, with JavaScript's remainder for a size that reads as negative. */
  function PaddingOf(size: int): (padding: nat)
    ensures size >= 0 ==> padding < BLOCK && (size + padding) % BLOCK == 0
  {
    if size >= 0 then (BLOCK - size % BLOCK) % BLOCK else (BLOCK + (-size) % BLOCK) % BLOCK
  }

  /* ── What a header that was written reads as ─────────────────────── */

  lemma {:induction false} CutPadded(name: seq<byte>, zeros: nat)
    requires NUL !in name
    ensures CutAtNul(name + Zeros(zeros)) == name
    decreases |name|
  {
    var s := name + Zeros(zeros);
    if name == [] {
      if s != [] {
        assert !HasLineBreak(s[1..]);
      }
    } else {
      assert s[1..] == name[1..] + Zeros(zeros);
      CutPadded(name[1..], zeros);
    }
  }

  lemma {:induction false} ParseDigits(s: seq<byte>)
    requires s != [] && AllDigits(s, 8)
    ensures ParseOctal(TrimEnd(TrimStart(s))) == Value(s, 8)
  {
    assert IsDigit(s[0], 8) && IsDigit(s[|s| - 1], 8);
    DigitPrefixOfDigits(s, 8);
  }

  lemma AsciiOfDigits(s: seq<byte>, zeros: nat)
    requires AllDigits(s, 8)
    ensures Ascii(s + Zeros(zeros)) == s + Zeros(zeros)
  {
  }

  /** A size field that holds digits, closed by a NUL or not, reads as their value. */
  lemma ReadSizeOfDigits(digits: seq<byte>, zeros: nat)
    requires digits != [] && AllDigits(digits, 8)
    ensures ReadSize(digits + Zeros(zeros)) == Value(digits, 8)
  {
    hide CutAtNul, ParseOctal, Value, TrimStart, TrimEnd;
    AsciiOfDigits(digits, zeros);
    forall i | 0 <= i < |digits| ensures digits[i] != NUL { assert IsDigit(digits[i], 8); }
    CutPadded(digits, zeros);
    ParseDigits(digits);
  }

  lemma SmallSizeReadsBack(size: nat)
    requires |Digits(size, 8)| <= 11
    ensures ReadSize(Field(Octal(size, 11), 12)) == size
  {
    hide ReadSize, Value, Digits;
    var digits := Digits(size, 8);
    var padded := Repeat(ZERO, 11 - |digits|) + digits;
    ValueOfDigits(size, 8);
    ValueOfPadded(11 - |digits|, digits, 8);
    assert Field(Octal(size, 11), 12) == padded + Zeros(1);
    ReadSizeOfDigits(padded, 1);
  }

  lemma LargeSizeIsCut(size: nat)
    requires |Digits(size, 8)| >= 12
    ensures ReadSize(Field(Octal(size, 11), 12)) == Value(Digits(size, 8)[..12], 8) < Pow(8, 12)
  {
    hide ReadSize, Value, Digits, Pow;
    var field := Digits(size, 8)[..12];
    assert Field(Octal(size, 11), 12) == field + Zeros(0);
    ReadSizeOfDigits(field, 0);
    ValueBound(field, 8);
  }

  /** The size comes back exactly when twelve octal digits can hold it. */
  lemma SizeFieldReadsBack(size: nat)
    ensures ReadSize(Field(Octal(size, 11), 12)) == size <==> size < Pow(8, 12)
  {
    hide ReadSize, Value, Digits, Pow, Field;
    var digits := Digits(size, 8);
    DigitsLength(size, 8, 12);
    ValueOfDigits(size, 8);
    if |digits| <= 11 {
      SmallSizeReadsBack(size);
    } else {
      LargeSizeIsCut(size);
      if |digits| == 12 {
        assert digits[..12] == digits;
      }
    }
  }

  lemma HeaderFields(name: seq<byte>, size: nat, kind: byte, mode: nat, mtime: int)
    ensures var block := HeaderBlock(name, size, kind, mode, mtime);
      && block[..100] == Field(FitName(name), 100)
      && block[124..136] == Field(Octal(size, 11), 12)
      && block[156] == kind
      && block[257..262] == USTAR
      && block[345..500] == Zeros(155)
  {
    hide Head, Tail, ChecksumField, FitName, Octal, Field, Zeros, Sum;
    var head, tail := Head(name, size, mode, mtime), Tail(kind);
    var sum := ChecksumField(Sum(head + Repeat(SPACE, 8) + tail));
    BlockSlices(head, sum, tail);
    HeadSlices(name, size, mode, mtime);
    TailSlices(kind);
  }

  lemma BlockSlices(head: seq<byte>, sum: seq<byte>, tail: seq<byte>)
    requires |head| == 148 && |sum| == 8 && |tail| == 356
    ensures var block := head + sum + tail;
      && block[..100] == head[..100]
      && block[124..136] == head[124..136]
      && block[156] == tail[0]
      && block[257..262] == tail[101..106]
      && block[345..500] == tail[189..344]
  {
  }

  lemma HeadSlices(name: seq<byte>, size: nat, mode: nat, mtime: int)
    ensures var head := Head(name, size, mode, mtime);
      head[..100] == Field(FitName(name), 100) && head[124..136] == Field(Octal(size, 11), 12)
  {
    hide FitName, Octal, Field;
  }

  lemma TailSlices(kind: byte)
    ensures var tail := Tail(kind);
      tail[0] == kind && tail[101..106] == USTAR && tail[189..344] == Zeros(155)
  {
  }

  lemma HeaderSizeReadsBack(name: seq<byte>, size: nat, kind: byte, mode: nat, mtime: int)
    ensures SizeOf(HeaderBlock(name, size, kind, mode, mtime)) == size <==> size < Pow(8, 12)
  {
    hide HeaderBlock, ReadSize;
    HeaderFields(name, size, kind, mode, mtime);
    SizeFieldReadsBack(size);
  }

  lemma HeaderNameReadsBack(name: seq<byte>, size: nat, kind: byte, mode: nat, mtime: int)
    requires NUL !in name && |name| <= NAME_FIELD
    ensures NameOf(HeaderBlock(name, size, kind, mode, mtime)) == name
  {
    hide HeaderBlock, CutAtNul;
    HeaderFields(name, size, kind, mode, mtime);
    CutPadded(name, 100 - |name|);
    assert Field(FitName(name), 100) == name + Zeros(100 - |name|);
  }

  lemma HeaderKindReadsBack(name: seq<byte>, size: nat, kind: byte, mode: nat, mtime: int)
    requires kind < 128
    ensures KindOf(HeaderBlock(name, size, kind, mode, mtime)) == kind
  {
    hide HeaderBlock;
    HeaderFields(name, size, kind, mode, mtime);
    SevenBits(kind);
  }

  lemma SevenBits(b: byte)
    requires b < 128
    ensures b % 128 == b
  {
  }

  lemma HeaderHasNoPrefix(name: seq<byte>, size: nat, kind: byte, mode: nat, mtime: int)
    ensures PrefixOf(HeaderBlock(name, size, kind, mode, mtime)) == []
  {
    hide HeaderBlock, CutAtNul;
    var block := HeaderBlock(name, size, kind, mode, mtime);
    HeaderFields(name, size, kind, mode, mtime);
    CutPadded([], 155);
    assert block[345..500] == [] + Zeros(155);
  }

  /** A name that is UTF-8 and not empty leaves a first byte no reader takes for the end marker. */
  lemma HeaderIsNotTheEnd(name: seq<byte>, size: nat, kind: byte, mode: nat, mtime: int)
    requires name != [] && NUL !in name && Utf8Shaped(name)
    ensures HeaderBlock(name, size, kind, mode, mtime)[0] != NUL
  {
    HeaderFields(name, size, kind, mode, mtime);
    if |name| > NAME_FIELD {
      BoundaryIsNear(name, NAME_FIELD);
    }
    assert FitName(name) != [] && FitName(name)[0] == name[0];
  }

  lemma BoundaryIsNear(text: seq<byte>, k: nat)
    requires 3 < k < |text| && Utf8Shaped(text)
    ensures Boundary(text, k) >= k - 3
  {
    if IsContinuation(text[k]) {
      assert HasStart(text, k);
      if IsContinuation(text[k - 1]) {
        if IsContinuation(text[k - 2]) {
          assert !IsContinuation(text[k - 3]);
          assert Boundary(text, k - 2) == Boundary(text, k - 3) == k - 3;
        }
      }
    }
  }

  /** The one strange rule of the format: the checksum field holds the sum of the whole block with that field read as spaces. */
  lemma ChecksumHolds(name: seq<byte>, size: nat, kind: byte, mode: nat, mtime: int)
    ensures var block := HeaderBlock(name, size, kind, mode, mtime);
      && AllDigits(block[148..154], 8)
      && Value(block[148..154], 8) == Sum(block[..148] + Repeat(SPACE, 8) + block[156..])
      && block[154] == NUL && block[155] == SPACE
  {
    var block := HeaderBlock(name, size, kind, mode, mtime);
    var head, tail := Head(name, size, mode, mtime), Tail(kind);
    var sum := Sum(head + Repeat(SPACE, 8) + tail);
    assert block[..148] == head && block[156..] == tail;
    ChecksumText(sum);
    var field := ChecksumField(sum);
    assert block[148..156] == field;
    assert block[148..154] == field[..6] && block[154] == field[6] && block[155] == field[7];
  }

  lemma ChecksumText(sum: nat)
    requires sum <= 255 * BLOCK
    ensures var field := ChecksumField(sum);
      AllDigits(field[..6], 8) && Value(field[..6], 8) == sum && field[6] == NUL && field[7] == SPACE
  {
    var digits := Digits(sum, 8);
    Pow8To6();
    DigitsLength(sum, 8, 6);
    ValueOfDigits(sum, 8);
    ValueOfPadded(6 - |digits|, digits, 8);
    assert ChecksumField(sum)[..6] == PadStart(digits, 6);
  }

  lemma Pow8To6()
    ensures Pow(8, 6) == 262144
  {
    assert Pow(8, 3) == 512;
  }

  /* ── The layout, by its offsets ──────────────────────────────────── */

  lemma OctalField(value: nat, width: nat)
    requires value < Pow(8, width) && width >= 1
    ensures var field := Field(Octal(value, width), width + 1);
      AllDigits(field[..width], 8) && Value(field[..width], 8) == value && field[width] == NUL
  {
    hide Digits, Value, Pow;
    var digits := Digits(value, 8);
    DigitsLength(value, 8, width);
    ValueOfDigits(value, 8);
    ValueOfPadded(width - |digits|, digits, 8);
    assert Field(Octal(value, width), width + 1)[..width] == PadStart(digits, width);
  }

  lemma HeadNumbers(name: seq<byte>, size: nat, mode: nat, mtime: int)
    ensures var head := Head(name, size, mode, mtime);
      && head[100..108] == Field(Octal(mode % 4096, 7), 8)
      && head[108..116] == Field(Octal(0, 7), 8) && head[116..124] == Field(Octal(0, 7), 8)
      && head[136..148] == Field(Octal(mtime, 11), 12)
  {
    hide FitName, Octal, Field;
  }

  lemma Pow8()
    ensures Pow(8, 7) == 2097152 && Pow(8, 11) == 8589934592 && Pow(8, 1) == 8
  {
    assert Pow(8, 3) == 512 && Pow(8, 5) == 32768 && Pow(8, 7) == 2097152 && Pow(8, 9) == 134217728;
  }

  /** Every number stands where the format has it: the mode's twelve bits, two owners that are nobody, the time until 8^11 seconds,
      the kind, the format's name and its version; and what is none of these is zero. */
  lemma HeaderLayout(name: seq<byte>, size: nat, kind: byte, mode: nat, mtime: int)
    ensures var block := HeaderBlock(name, size, kind, mode, mtime);
      && AllDigits(block[100..107], 8) && Value(block[100..107], 8) == mode % 4096 && block[107] == 0
      && block[108..116] == [48, 48, 48, 48, 48, 48, 48, 0] == block[116..124]
      && (0 <= mtime < 8589934592 ==> AllDigits(block[136..147], 8) && Value(block[136..147], 8) == mtime && block[147] == 0)
      && block[156] == kind
      && block[257..265] == [117, 115, 116, 97, 114, 0, 48, 48]
      && (forall i :: 157 <= i < 257 || 265 <= i < 512 ==> block[i] == 0)
  {
    hide Head, ChecksumField, Octal, Field, Sum, Value, Pow;
    var head, tail := Head(name, size, mode, mtime), Tail(kind);
    var sum := ChecksumField(Sum(head + Repeat(SPACE, 8) + tail));
    var block := head + sum + tail;
    assert forall i :: 0 <= i < 148 ==> block[i] == head[i];
    assert forall i :: 0 <= i < 356 ==> block[156 + i] == tail[i];
    HeadNumbers(name, size, mode, mtime);
    Pow8();
    OctalField(mode % 4096, 7);
    assert block[100..108] == head[100..108] && block[100..107] == block[100..108][..7] && block[107] == block[100..108][7];
    assert block[108..116] == head[108..116] && block[116..124] == head[116..124];
    NobodysField();
    if 0 <= mtime < 8589934592 {
      OctalField(mtime, 11);
      assert block[136..148] == head[136..148] && block[136..147] == block[136..148][..11] && block[147] == block[136..148][11];
    }
    TailBytes(kind);
    assert block[257..265] == tail[101..109];
    forall i | 157 <= i < 257 || 265 <= i < 512 ensures block[i] == 0 { assert block[i] == tail[i - 156]; }
  }

  lemma NobodysField()
    ensures Field(Octal(0, 7), 8) == [48, 48, 48, 48, 48, 48, 48, 0]
  {
    assert Digits(0, 8) == [48];
    assert PadStart([48], 7) == [48, 48, 48, 48, 48, 48, 48];
  }

  lemma TailBytes(kind: byte)
    ensures var tail := Tail(kind);
      && tail[0] == kind && tail[101..109] == [117, 115, 116, 97, 114, 0, 48, 48]
      && forall i :: 1 <= i < 101 || 109 <= i < 356 ==> tail[i] == 0
  {
  }

  /** A long name is cut at the last place within the field that is not inside a character. */
  lemma FitsToACharacter(name: seq<byte>)
    requires |name| > NAME_FIELD
    ensures FitName(name) <= name && |FitName(name)| <= 100
    ensures forall k :: |FitName(name)| < k <= 100 ==> IsContinuation(name[k])
    ensures FitName(name) != [] ==> !IsContinuation(name[|FitName(name)|])
  {
    BoundaryIsLast(name, NAME_FIELD);
  }

  lemma {:induction false} BoundaryIsLast(text: seq<byte>, k: nat)
    requires k < |text|
    ensures forall i :: Boundary(text, k) < i <= k ==> IsContinuation(text[i])
    ensures Boundary(text, k) > 0 ==> !IsContinuation(text[Boundary(text, k)])
  {
    if k > 0 && IsContinuation(text[k]) {
      BoundaryIsLast(text, k - 1);
    }
  }

  /* ── Fields that others wrote ────────────────────────────────────── */

  /** A newline, a carriage return or one of Unicode's two separators, at this place or later. */
  predicate BreaksFrom(s: seq<byte>, from: nat) {
    exists i :: from <= i < |s| &&
      (s[i] == 10 || s[i] == 13
       || (i + 2 < |s| && s[i] == 0xE2 && s[i + 1] == 0x80 && (s[i + 2] == 0xA8 || s[i + 2] == 0xA9)))
  }

  lemma BreaksInTheRest(s: seq<byte>, from: nat)
    requires from <= |s|
    ensures HasLineBreak(s[from..]) <==> BreaksFrom(s, from)
  {
    var rest := s[from..];
    if HasLineBreak(rest) {
      var i :| 0 <= i < |rest| && LineBreakAt(rest, i);
      assert s[from + i] == rest[i];
    }
    if BreaksFrom(s, from) {
      var i :| from <= i < |s| &&
        (s[i] == 10 || s[i] == 13
         || (i + 2 < |s| && s[i] == 0xE2 && s[i + 1] == 0x80 && (s[i + 2] == 0xA8 || s[i + 2] == 0xA9)));
      assert rest[i - from] == s[i] && LineBreakAt(rest, i - from);
    }
  }

  /** A text ends at the first NUL that no line break follows. */
  lemma CutIs(s: seq<byte>)
    ensures var n := |CutAtNul(s)|;
      && CutAtNul(s) == s[..n]
      && (n < |s| ==> s[n] == 0 && !BreaksFrom(s, n + 1))
      && forall i :: 0 <= i < n && s[i] == 0 ==> BreaksFrom(s, i + 1)
  {
    hide HasLineBreak, BreaksFrom;
    CutEnds(s);
    var n := |CutAtNul(s)|;
    if n < |s| { BreaksInTheRest(s, n + 1); }
    forall i | 0 <= i < n && s[i] == 0 ensures BreaksFrom(s, i + 1) { BreaksInTheRest(s, i + 1); }
  }

  lemma {:induction false} CutEnds(s: seq<byte>)
    ensures var n := |CutAtNul(s)|;
      && (n < |s| ==> s[n] == 0 && !HasLineBreak(s[n + 1..]))
      && forall i :: 0 <= i < n && s[i] == 0 ==> HasLineBreak(s[i + 1..])
    decreases |s|
  {
    hide HasLineBreak;
    if s != [] && !(s[0] == NUL && !HasLineBreak(s[1..])) {
      CutEnds(s[1..]);
      var n := |CutAtNul(s[1..])|;
      assert n < |s[1..]| ==> s[n + 2..] == s[1..][n + 1..];
      forall i | 0 <= i < n + 1 && s[i] == 0 ensures HasLineBreak(s[i + 1..]) {
        if i > 0 { assert s[i + 1..] == s[1..][i..] && s[1..][i - 1] == 0; }
      }
    }
  }

  lemma {:induction false} CutAfter(t: seq<byte>, rest: seq<byte>)
    requires NUL !in t
    ensures CutAtNul(t + rest) == t + CutAtNul(rest)
    decreases |t|
  {
    if t == [] {
      assert t + rest == rest;
    } else {
      assert (t + rest)[1..] == t[1..] + rest;
      CutAfter(t[1..], rest);
    }
  }

  lemma {:induction false} BlanksGo(blanks: seq<byte>, s: seq<byte>)
    requires (forall b :: b in blanks ==> IsBlank(b)) && s != [] && !IsBlank(s[0])
    ensures TrimStart(blanks + s) == s
    decreases |blanks|
  {
    if blanks == [] {
      assert blanks + s == s;
    } else {
      assert blanks[0] in blanks && (blanks + s)[1..] == blanks[1..] + s;
      BlanksGo(blanks[1..], s);
    }
  }

  lemma {:induction false} EndGoes(s: seq<byte>, rest: seq<byte>)
    requires s != [] && !IsBlank(s[|s| - 1])
    ensures exists left: seq<byte> :: left <= rest && TrimEnd(s + rest) == s + left
    decreases |rest|
  {
    var all := s + rest;
    if rest != [] && IsBlank(rest[|rest| - 1]) {
      assert all[..|all| - 1] == s + rest[..|rest| - 1];
      EndGoes(s, rest[..|rest| - 1]);
      var left: seq<byte> :| left <= rest[..|rest| - 1] && TrimEnd(s + rest[..|rest| - 1]) == s + left;
      assert left <= rest && TrimEnd(all) == s + left;
    } else {
      assert rest <= rest && TrimEnd(all) == all;
    }
  }

  lemma SevenBitText(s: seq<byte>)
    requires forall b :: b in s ==> b < 128
    ensures Ascii(s) == s
  {
    forall i | 0 <= i < |s| ensures Ascii(s)[i] == s[i] { assert s[i] in s; }
  }

  lemma SizeText(blanks: seq<byte>, s: seq<byte>, rest: seq<byte>)
    requires (forall b :: b in blanks ==> IsBlank(b)) && s != [] && !IsBlank(s[0]) && !IsBlank(s[|s| - 1])
    requires NUL !in s && forall b :: b in s + rest ==> b < 128
    ensures exists left: seq<byte> :: left <= rest && ReadSize(blanks + s + rest) == ParseOctal(s + left)
  {
    hide CutAtNul, TrimStart, TrimEnd, ParseOctal;
    forall b | b in blanks + s + rest ensures b < 128 { assert b in blanks || b in s + rest; }
    SevenBitText(blanks + s + rest);
    CutAfter(blanks + s, rest);
    var cut := CutAtNul(rest);
    assert (blanks + s) + cut == blanks + (s + cut);
    BlanksGo(blanks, s + cut);
    EndGoes(s, cut);
    var left: seq<byte> :| left <= cut && TrimEnd(s + cut) == s + left;
    assert ReadSize(blanks + s + rest) == ParseOctal(s + left);
  }

  lemma ParsesTo(sign: seq<byte>, digits: seq<byte>, left: seq<byte>)
    requires sign == [] || sign == [45] || sign == [43]
    requires digits != [] && AllDigits(digits, 8) && (left != [] ==> !(48 <= left[0] < 56))
    ensures ParseOctal(sign + digits + left) == if sign == [45] then 0 - (Value(digits, 8) as int) else Value(digits, 8)
  {
    hide Value, DigitPrefix;
    assert IsDigit(digits[0], 8);
    RunOfDigits(digits, left, 8);
    if sign != [] {
      assert (sign + digits + left)[1..] == digits + left;
    } else {
      assert sign + digits + left == digits + left;
    }
  }

  /** A size is the octal digits after any blanks and a sign, and whatever follows them is passed over. */
  lemma OtherSizes(blanks: seq<byte>, sign: seq<byte>, digits: seq<byte>, rest: seq<byte>)
    requires (forall b :: b in blanks ==> b == 32 || 9 <= b <= 13) && (sign == [] || sign == [45] || sign == [43])
    requires digits != [] && forall i :: 0 <= i < |digits| ==> 48 <= digits[i] < 56
    requires (rest != [] ==> !(48 <= rest[0] < 56)) && forall b :: b in rest ==> b < 128
    ensures AllDigits(digits, 8)
    ensures ReadSize(blanks + (sign + digits) + rest) == if sign == [45] then 0 - (Value(digits, 8) as int) else Value(digits, 8)
  {
    hide ReadSize, ParseOctal, Value;
    var s := sign + digits;
    assert s[|s| - 1] == digits[|digits| - 1] && IsDigit(digits[|digits| - 1], 8) && IsDigit(digits[0], 8);
    forall b | b in digits ensures 48 <= b < 56 { var i :| 0 <= i < |digits| && digits[i] == b; }
    SizeText(blanks, s, rest);
    var left: seq<byte> :| left <= rest && ReadSize(blanks + s + rest) == ParseOctal(s + left);
    ParsesTo(sign, digits, left);
  }
}
