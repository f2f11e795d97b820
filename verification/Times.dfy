/** Docker's timestamps as text, and that the text the follower compares is in the order of time. */
module Times {
  import opened Bytes

  const DASH: byte := 45
  const COLON: byte := 58
  const LETTER_T: byte := 84
  const LETTER_Z: byte := 90

  /** JavaScript's < on strings, and the order of times field by field. */
  predicate Less(a: seq<int>, b: seq<int>)
    decreases |a|
  {
    if b == [] then false
    else if a == [] then true
    else if a[0] != b[0] then a[0] < b[0]
    else Less(a[1..], b[1..])
  }

  /** The order of texts, and of times: the first place in which they differ decides, and a beginning comes before the whole. */
  lemma {:induction false} LessIff(a: seq<int>, b: seq<int>)
    ensures Less(a, b) <==>
      exists k :: 0 <= k <= |a| && k < |b| && a[..k] == b[..k] && (k < |a| ==> a[k] < b[k])
    decreases |a|
  {
    if a != [] && b != [] {
      LessIff(a[1..], b[1..]);
      if a[0] == b[0] {
        if Less(a[1..], b[1..]) {
          var k :| 0 <= k <= |a[1..]| && k < |b[1..]| && a[1..][..k] == b[1..][..k] && (k < |a[1..]| ==> a[1..][k] < b[1..][k]);
          assert a[..k + 1] == [a[0]] + a[1..][..k] && b[..k + 1] == [b[0]] + b[1..][..k];
        }
        if k :| 0 <= k <= |a| && k < |b| && a[..k] == b[..k] && (k < |a| ==> a[k] < b[k]) {
          assert k > 0;
          assert a[1..][..k - 1] == a[..k][1..] && b[1..][..k - 1] == b[..k][1..];
        }
      } else {
        assert a[..0] == b[..0];
        if k :| 0 <= k <= |a| && k < |b| && a[..k] == b[..k] && (k < |a| ==> a[k] < b[k]) {
          CommonStart(a, b, k);
        }
      }
    } else if b != [] {
      assert a[..0] == b[..0];
    }
  }

  lemma CommonStart(a: seq<int>, b: seq<int>, k: nat)
    requires k <= |a| && k <= |b| && a[..k] == b[..k]
    ensures k > 0 ==> a[0] == b[0]
  {
    if k > 0 { assert a[..k][0] == a[0] && b[..k][0] == b[0]; }
  }

  lemma {:induction false} LessConcat(a: seq<int>, b: seq<int>, x: seq<int>, y: seq<int>)
    requires |a| == |b|
    ensures Less(a + x, b + y) <==> Less(a, b) || (a == b && Less(x, y))
    decreases |a|
  {
    if a == [] {
      assert a + x == x && b + y == y;
    } else {
      assert (a + x)[1..] == a[1..] + x && (b + y)[1..] == b[1..] + y;
      LessConcat(a[1..], b[1..], x, y);
      assert a == [a[0]] + a[1..] && b == [b[0]] + b[1..];
    }
  }

  lemma {:induction false} LessIsTotal(a: seq<int>, b: seq<int>)
    requires |a| == |b|
    ensures Less(a, b) || Less(b, a) || a == b
    ensures !(Less(a, b) && Less(b, a)) && !Less(a, a)
    decreases |a|
  {
    if a != [] {
      LessIsTotal(a[1..], b[1..]);
      assert a == [a[0]] + a[1..] && b == [b[0]] + b[1..];
    }
  }

  lemma {:induction false} LessIsTransitive(a: seq<int>, b: seq<int>, c: seq<int>)
    requires Less(a, b) && Less(b, c)
    ensures Less(a, c)
    decreases |a|
  {
    if a != [] && a[0] == b[0] && b[0] == c[0] {
      LessIsTransitive(a[1..], b[1..], c[1..]);
    }
  }

  /** Numbers written with the same number of digits are in the order of their texts. */
  lemma {:induction false} DigitsInOrder(a: seq<byte>, b: seq<byte>)
    requires |a| == |b| && AllDigits(a, 10) && AllDigits(b, 10)
    ensures Less(a, b) <==> Value(a, 10) < Value(b, 10)
    ensures a == b <==> Value(a, 10) == Value(b, 10)
    decreases |a|
  {
    if a != [] {
      var n := |a| - 1;
      var x, y, c, d := a[..n], b[..n], a[n], b[n];
      assert IsDigit(c, 10) && IsDigit(d, 10);
      DigitsInOrder(x, y);
      assert a == x + [c] && b == y + [d];
      LessConcat(x, y, [c], [d]);
      assert Less([c], [d]) <==> c < d by { assert [c][1..] == [] && [d][1..] == []; }
      assert Value(a, 10) == Value(x, 10) * 10 + (c - 48) && Value(b, 10) == Value(y, 10) * 10 + (d - 48);
    }
  }

  /* ── Fields of fixed width ───────────────────────────────────────── */

  function Fixed(v: nat, width: nat): seq<byte> { PadStart(Digits(v, 10), width) }

  predicate Fits(v: nat, width: nat) { width >= 1 && v < Pow(10, width) }

  lemma FixedText(v: nat, width: nat)
    requires Fits(v, width)
    ensures |Fixed(v, width)| == width && AllDigits(Fixed(v, width), 10) && Value(Fixed(v, width), 10) == v
  {
    hide Digits, Value, Pow;
    DigitsLength(v, 10, width);
    ValueOfDigits(v, 10);
    ValueOfPadded(width - |Digits(v, 10)|, Digits(v, 10), 10);
  }

  predicate FieldsFit(values: seq<nat>, widths: seq<nat>) {
    |values| == |widths| && forall i :: 0 <= i < |values| ==> Fits(values[i], widths[i])
  }

  /** Fields one after another, a separator between each two. */
  function Row(values: seq<nat>, widths: seq<nat>, separators: seq<byte>): seq<byte>
    requires |values| == |widths| && |separators| + 1 == |values|
  {
    if |values| == 1 then Fixed(values[0], widths[0])
    else Fixed(values[0], widths[0]) + [separators[0]] + Row(values[1..], widths[1..], separators[1..])
  }

  function RowLength(widths: seq<nat>): nat { if widths == [] then 0 else widths[0] + 1 + RowLength(widths[1..]) }

  lemma {:induction false} RowHasLength(values: seq<nat>, widths: seq<nat>, separators: seq<byte>)
    requires FieldsFit(values, widths) && |separators| + 1 == |values|
    ensures |Row(values, widths, separators)| + 1 == RowLength(widths)
    decreases |values|
  {
    hide Fixed;
    FixedText(values[0], widths[0]);
    if |values| > 1 {
      RowHasLength(values[1..], widths[1..], separators[1..]);
    } else {
      assert widths[1..] == [];
    }
  }

  /** Rows of the same widths are in the order of their fields. */
  lemma {:induction false} RowsInOrder(a: seq<nat>, b: seq<nat>, widths: seq<nat>, separators: seq<byte>)
    requires FieldsFit(a, widths) && FieldsFit(b, widths) && |separators| + 1 == |a|
    ensures Less(Row(a, widths, separators), Row(b, widths, separators)) <==> Less(a, b)
    ensures Row(a, widths, separators) == Row(b, widths, separators) <==> a == b
    decreases |a|
  {
    hide Fixed, Fits;
    FixedText(a[0], widths[0]);
    FixedText(b[0], widths[0]);
    var x, y := Fixed(a[0], widths[0]), Fixed(b[0], widths[0]);
    DigitsInOrder(x, y);
    assert a == [a[0]] + a[1..] && b == [b[0]] + b[1..];
    if |a| == 1 {
      assert a[1..] == [] && b[1..] == [];
    } else {
      RowsInOrder(a[1..], b[1..], widths[1..], separators[1..]);
      RestInOrder(x, y, separators[0], Row(a[1..], widths[1..], separators[1..]), Row(b[1..], widths[1..], separators[1..]));
    }
  }

  lemma RestInOrder(x: seq<byte>, y: seq<byte>, separator: byte, p: seq<byte>, q: seq<byte>)
    requires |x| == |y|
    ensures Less(x + [separator] + p, y + [separator] + q) <==> Less(x, y) || (x == y && Less(p, q))
    ensures x + [separator] + p == y + [separator] + q <==> x == y && p == q
  {
    LessConcat(x + [separator], y + [separator], p, q);
    LessConcat(x, y, [separator], [separator]);
    LessIsTotal([separator], [separator]);
    var a, b := x + [separator] + p, y + [separator] + q;
    if a == b {
      assert x == a[..|x|] && y == b[..|y|] && p == a[|x| + 1..] && q == b[|y| + 1..];
    }
    assert x + [separator] == y + [separator] <==> x == y by {
      assert (x + [separator])[..|x|] == x && (y + [separator])[..|y|] == y;
    }
  }

  /* ── Docker's times ──────────────────────────────────────────────── */

  /** A time: year, month, day, hour, minute, second, nanoseconds. */
  type Stamp = s: seq<nat> | |s| == 7 witness [0, 0, 0, 0, 0, 0, 0]

  const DATE_WIDTHS: seq<nat> := [4, 2, 2, 2, 2, 2]
  const DATE_SEPARATORS: seq<byte> := [DASH, DASH, LETTER_T, COLON, COLON]
  const NANOS: nat := 9

  predicate IsStamp(s: Stamp) {
    FieldsFit(s[..6], DATE_WIDTHS) && Fits(s[6], NANOS)
  }

  /** The whole second a time is in. */
  function Second(s: Stamp): seq<nat> {
    s[..6]
  }

  function DateText(s: Stamp): seq<byte> {
    Row(s[..6], DATE_WIDTHS, DATE_SEPARATORS)
  }

  function TrimZeros(text: seq<byte>): (t: seq<byte>)
    ensures |t| <= |text| && (t == [] || t[|t| - 1] != ZERO)
  {
    if text != [] && text[|text| - 1] == ZERO then TrimZeros(text[..|text| - 1]) else text
  }

  /** A time as Docker writes it: the trailing zeros of the fraction gone, and the point with them when nothing is left. */
  function DockerText(s: Stamp): seq<byte> {
    var fraction := TrimZeros(Fixed(s[6], NANOS));
    DateText(s) + (if fraction == [] then [] else [DOT] + fraction) + [LETTER_Z]
  }

  function PadEnd(text: seq<byte>, width: nat): seq<byte> {
    if |text| >= width then text else text + Repeat(ZERO, width - |text|)
  }

  /** A time as the follower compares it: with all nine digits. */
  function OrderedText(s: Stamp): seq<byte> {
    DateText(s) + [DOT] + Fixed(s[6], NANOS) + [LETTER_Z]
  }

  /** A date and a time, by the pattern: digits where the widths say, the separators between. */
  predicate MatchesRow(text: seq<byte>, widths: seq<nat>, separators: seq<byte>)
    requires |separators| + 1 == |widths|
    decreases |widths|
  {
    if |widths| == 1 then |text| == widths[0] && AllDigits(text, 10)
    else
      && |text| > widths[0] && AllDigits(text[..widths[0]], 10) && text[widths[0]] == separators[0]
      && MatchesRow(text[widths[0] + 1..], widths[1..], separators[1..])
  }

  datatype Stamped = Stamped(at: seq<byte>, line: seq<byte>)

  function WithoutSpace(s: seq<byte>): seq<byte> { if s != [] && s[0] == SPACE then s[1..] else s }

  /** /^(\d{4}-\d\d-\d\dT\d\d:\d\d:\d\d(?:\.\d+)?Z) ?(.*)$/s */
  function SplitTimestamp(raw: seq<byte>): (r: Option<Stamped>)
    ensures r.Some? ==> IsStampText(r.value.at)
  {
    if |raw| < 20 || !MatchesRow(raw[..19], DATE_WIDTHS, DATE_SEPARATORS) then None
    else if raw[19] == LETTER_Z then Some(Stamped(raw[..20], WithoutSpace(raw[20..])))
    else if raw[19] == DOT then
      var n := |DigitPrefix(raw[20..], 10)|;
      if n == 0 || 20 + n >= |raw| || raw[20 + n] != LETTER_Z then None
      else Some(Stamped(raw[..21 + n], WithoutSpace(raw[21 + n..])))
    else None
  }

  predicate IsStampText(at: seq<byte>) {
    |at| >= 20 && at[|at| - 1] == LETTER_Z && (|at| > 20 ==> at[19] == DOT)
  }

  /** replace(/(?:\.(\d*))?Z$/, …): the fraction padded to nine digits. */
  function OrderedTime(at: seq<byte>): seq<byte>
    requires IsStampText(at)
  {
    at[..19] + [DOT] + PadEnd(if |at| == 20 then [] else at[20..|at| - 1], NANOS) + [LETTER_Z]
  }

  /* ── What was written reads back, and compares as time ───────────── */

  lemma {:induction false} RowMatches(values: seq<nat>, widths: seq<nat>, separators: seq<byte>)
    requires FieldsFit(values, widths) && |separators| + 1 == |values|
    ensures MatchesRow(Row(values, widths, separators), widths, separators)
    decreases |values|
  {
    hide Fixed;
    FixedText(values[0], widths[0]);
    if |values| > 1 {
      var text := Row(values, widths, separators);
      RowMatches(values[1..], widths[1..], separators[1..]);
      assert text[..widths[0]] == Fixed(values[0], widths[0]);
      assert text[widths[0] + 1..] == Row(values[1..], widths[1..], separators[1..]);
    }
  }

  lemma DateTextShape(s: Stamp)
    requires IsStamp(s)
    ensures |DateText(s)| == 19 && MatchesRow(DateText(s), DATE_WIDTHS, DATE_SEPARATORS)
  {
    hide Row, MatchesRow;
    RowHasLength(s[..6], DATE_WIDTHS, DATE_SEPARATORS);
    RowMatches(s[..6], DATE_WIDTHS, DATE_SEPARATORS);
    DateWidth();
  }

  lemma DateWidth()
    ensures RowLength(DATE_WIDTHS) == 20
  {
    var w := DATE_WIDTHS;
    assert w[1..] == [2, 2, 2, 2, 2] && w[1..][1..] == [2, 2, 2, 2] && w[1..][1..][1..] == [2, 2, 2];
    assert w[1..][1..][1..][1..] == [2, 2] && w[1..][1..][1..][1..][1..] == [2];
    assert RowLength([2]) == 3 + RowLength([2][1..]) == 3;
    assert RowLength([2, 2]) == 3 + RowLength([2, 2][1..]) == 6;
    assert RowLength([2, 2, 2]) == 3 + RowLength([2, 2, 2][1..]) == 9;
    assert RowLength([2, 2, 2, 2]) == 3 + RowLength([2, 2, 2, 2][1..]) == 12;
  }

  lemma {:induction false} TrimmedAndPadded(text: seq<byte>, width: nat)
    requires |text| == width && AllDigits(text, 10)
    ensures PadEnd(TrimZeros(text), width) == text && AllDigits(TrimZeros(text), 10)
    decreases |text|
  {
    if text != [] && text[|text| - 1] == ZERO {
      var front := text[..|text| - 1];
      TrimmedAndPadded(front, width - 1);
      assert text == front + [ZERO];
      assert PadEnd(TrimZeros(front), width) == PadEnd(TrimZeros(front), width - 1) + [ZERO];
    }
  }

  /** A line as Docker sends it is split into its time and its text. */
  lemma LineSplits(s: Stamp, text: seq<byte>)
    requires IsStamp(s)
    ensures SplitTimestamp(DockerText(s) + [SPACE] + text) == Some(Stamped(DockerText(s), text))
  {
    hide DateText, MatchesRow, TrimZeros, Fixed, Fits;
    DateTextShape(s);
    FixedText(s[6], NANOS);
    TrimmedAndPadded(Fixed(s[6], NANOS), NANOS);
    var fraction := TrimZeros(Fixed(s[6], NANOS));
    if fraction == [] {
      var raw := DateText(s) + [LETTER_Z] + [SPACE] + text;
      assert DockerText(s) + [SPACE] + text == raw;
      assert raw[..19] == DateText(s) && raw[..20] == DateText(s) + [LETTER_Z] && raw[20..] == [SPACE] + text;
      assert DockerText(s) == DateText(s) + [LETTER_Z];
      assert raw[19] == LETTER_Z && ([SPACE] + text)[1..] == text;
    } else {
      LineWithFraction(DateText(s), fraction, text);
    }
  }

  lemma LineWithFraction(date: seq<byte>, fraction: seq<byte>, text: seq<byte>)
    requires |date| == 19 && MatchesRow(date, DATE_WIDTHS, DATE_SEPARATORS)
    requires fraction != [] && AllDigits(fraction, 10)
    ensures SplitTimestamp(date + ([DOT] + fraction) + [LETTER_Z] + [SPACE] + text)
         == Some(Stamped(date + ([DOT] + fraction) + [LETTER_Z], text))
  {
    hide MatchesRow;
    var raw, n := date + ([DOT] + fraction) + [LETTER_Z] + [SPACE] + text, |fraction|;
    assert raw[..19] == date;
    assert raw[20..] == fraction + ([LETTER_Z, SPACE] + text);
    RunOfDigits(fraction, [LETTER_Z, SPACE] + text, 10);
    assert raw[20 + n] == LETTER_Z;
    assert raw[..21 + n] == date + ([DOT] + fraction) + [LETTER_Z] && raw[21 + n..] == [SPACE] + text;
  }

  /** Docker's text, made comparable, is the text with all nine digits. */
  lemma OrderedTimeOf(s: Stamp)
    requires IsStamp(s)
    ensures IsStampText(DockerText(s)) && OrderedTime(DockerText(s)) == OrderedText(s)
  {
    hide DateText, TrimZeros, Fixed, Fits, PadEnd;
    DateTextShape(s);
    FixedText(s[6], NANOS);
    TrimmedAndPadded(Fixed(s[6], NANOS), NANOS);
    var at, fraction := DockerText(s), TrimZeros(Fixed(s[6], NANOS));
    assert at[..19] == DateText(s);
    if fraction != [] {
      assert at[20..|at| - 1] == fraction;
    }
  }

  /** The order of the texts is the order of the times. */
  lemma TextOrderIsTimeOrder(s: Stamp, t: Stamp)
    requires IsStamp(s) && IsStamp(t)
    ensures Less(OrderedText(s), OrderedText(t)) <==> Less(s, t)
    ensures OrderedText(s) == OrderedText(t) <==> s == t
  {
    hide Row, Fixed, Fits, Less;
    var a, b := Fixed(s[6], NANOS), Fixed(t[6], NANOS);
    DateTextShape(s);
    DateTextShape(t);
    FixedText(s[6], NANOS);
    FixedText(t[6], NANOS);
    RowsInOrder(s[..6], t[..6], DATE_WIDTHS, DATE_SEPARATORS);
    DigitsInOrder(a, b);
    RestInOrder(DateText(s), DateText(t), DOT, a + [LETTER_Z], b + [LETTER_Z]);
    RestInOrder(a, b, LETTER_Z, [], []);
    LessIsTotal([], []);
    assert a + [LETTER_Z] + [] == a + [LETTER_Z] && b + [LETTER_Z] + [] == b + [LETTER_Z];
    assert DateText(s) + [DOT] + (a + [LETTER_Z]) == OrderedText(s);
    assert DateText(t) + [DOT] + (b + [LETTER_Z]) == OrderedText(t);
    assert s == s[..6] + [s[6]] && t == t[..6] + [t[6]];
    LessConcat(s[..6], t[..6], [s[6]], [t[6]]);
    OneLess(s[6], t[6]);
  }

  /** What is not later is not in a later second; and the first nineteen bytes name the second. */
  lemma SecondsInOrder(s: Stamp, t: Stamp)
    requires IsStamp(s) && IsStamp(t)
    ensures !Less(t, s) ==> !Less(DateText(t), DateText(s))
    ensures Less(DateText(t), DateText(s)) <==> Less(Second(t), Second(s))
    ensures |OrderedText(s)| >= 19 && OrderedText(s)[..19] == DateText(s)
  {
    hide Row, Fixed, Fits, Less;
    DateTextShape(s);
    RowsInOrder(t[..6], s[..6], DATE_WIDTHS, DATE_SEPARATORS);
    assert s == s[..6] + [s[6]] && t == t[..6] + [t[6]];
    LessConcat(t[..6], s[..6], [t[6]], [s[6]]);
  }

  lemma {:induction false} RowIsOneLine(values: seq<nat>, widths: seq<nat>, separators: seq<byte>)
    requires FieldsFit(values, widths) && |separators| + 1 == |values|
    requires LF !in separators
    ensures LF !in Row(values, widths, separators)
    decreases |values|
  {
    hide Fixed;
    FixedText(values[0], widths[0]);
    if |values| > 1 {
      RowIsOneLine(values[1..], widths[1..], separators[1..]);
    }
  }

  lemma DockerTextIsOneLine(s: Stamp)
    requires IsStamp(s)
    ensures LF !in DockerText(s)
  {
    hide Row, Fixed, TrimZeros;
    RowIsOneLine(s[..6], DATE_WIDTHS, DATE_SEPARATORS);
    FixedText(s[6], NANOS);
    TrimmedAndPadded(Fixed(s[6], NANOS), NANOS);
  }

  lemma OneLess(a: int, b: int)
    ensures Less([a], [b]) <==> a < b
  {
    assert [a][1..] == [] && [b][1..] == [];
  }

  /* ── Which lines have a time ─────────────────────────────────────── */

  /** A date and a time to the second, byte by byte. */
  predicate IsDate(date: seq<byte>) {
    |date| == 19 && forall i :: 0 <= i < 19 ==>
      if i == 4 || i == 7 then date[i] == 45
      else if i == 10 then date[i] == 84
      else if i == 13 || i == 16 then date[i] == 58
      else 48 <= date[i] < 58
  }

  lemma RowOfTwo(text: seq<byte>)
    ensures MatchesRow(text, [2], []) <==> |text| == 2 && 48 <= text[0] < 58 && 48 <= text[1] < 58
  {
  }

  lemma RowStep(text: seq<byte>, width: nat, widths: seq<nat>, separator: byte, separators: seq<byte>)
    requires |separators| + 1 == |widths|
    ensures MatchesRow(text, [width] + widths, [separator] + separators) <==>
      && |text| > width && (forall i :: 0 <= i < width ==> 48 <= text[i] < 58) && text[width] == separator
      && MatchesRow(text[width + 1..], widths, separators)
  {
    hide AllDigits;
    assert ([width] + widths)[1..] == widths && ([separator] + separators)[1..] == separators;
    RowUnfolds(text, [width] + widths, [separator] + separators);
    if |text| > width { DigitsOf(text, width); }
  }

  lemma RowUnfolds(text: seq<byte>, widths: seq<nat>, separators: seq<byte>)
    requires |separators| + 1 == |widths| && |widths| > 1
    ensures MatchesRow(text, widths, separators) <==>
      && |text| > widths[0] && AllDigits(text[..widths[0]], 10) && text[widths[0]] == separators[0]
      && MatchesRow(text[widths[0] + 1..], widths[1..], separators[1..])
  {
  }

  lemma DigitsOf(text: seq<byte>, width: nat)
    requires width <= |text|
    ensures AllDigits(text[..width], 10) <==> forall i :: 0 <= i < width ==> 48 <= text[i] < 58
  {
    assert forall i :: 0 <= i < width ==> text[..width][i] == text[i];
  }

  lemma DateIsARow(date: seq<byte>)
    requires |date| == 19
    ensures MatchesRow(date, DATE_WIDTHS, DATE_SEPARATORS) <==> IsDate(date)
  {
    hide MatchesRow;
    assert DATE_WIDTHS == [4] + ([2] + ([2] + ([2] + ([2] + [2]))));
    assert DATE_SEPARATORS == [45] + ([45] + ([84] + ([58] + ([58] + []))));
    var d1 := date[5..];
    var d2, d3, d4, d5 := d1[3..], d1[6..], d1[9..], d1[12..];
    assert d2 == date[8..] && d3 == date[11..] && d4 == date[14..] && d5 == date[17..];
    assert d2[3..] == d3 && d3[3..] == d4 && d4[3..] == d5;
    RowStep(date, 4, [2] + ([2] + ([2] + ([2] + [2]))), 45, [45] + ([84] + ([58] + ([58] + []))));
    RowStep(d1, 2, [2] + ([2] + ([2] + [2])), 45, [84] + ([58] + ([58] + [])));
    RowStep(d2, 2, [2] + ([2] + [2]), 84, [58] + ([58] + []));
    RowStep(d3, 2, [2] + [2], 58, [58] + []);
    RowStep(d4, 2, [2], 58, []);
    RowOfTwo(d5);
    assert forall i :: 0 <= i < 14 ==> d1[i] == date[5 + i];
    assert forall i :: 0 <= i < 11 ==> d2[i] == date[8 + i];
    assert forall i :: 0 <= i < 8 ==> d3[i] == date[11 + i];
    assert forall i :: 0 <= i < 5 ==> d4[i] == date[14 + i];
    assert d5[0] == date[17] && d5[1] == date[18];
  }

  function TimeText(date: seq<byte>, fraction: seq<byte>): seq<byte> {
    date + (if fraction == [] then [] else [46] + fraction) + [90]
  }

  /** The text after a time, with one space between them or none. */
  predicate Follows(raw: seq<byte>, at: seq<byte>, line: seq<byte>) {
    (raw == at + line && (line == [] || line[0] != 32)) || raw == at + [32] + line
  }

  /** A line has a time exactly when it begins with a date and a time to the second, any digits after a point, and a Z; its text is
      what follows, but for one space. */
  lemma SplitsIff(raw: seq<byte>, at: seq<byte>, line: seq<byte>)
    ensures SplitTimestamp(raw) == Some(Stamped(at, line)) <==>
      exists date: seq<byte>, fraction: seq<byte> ::
        && IsDate(date) && AllDigits(fraction, 10) && at == TimeText(date, fraction)
        && Follows(raw, at, line)
  {
    hide MatchesRow, IsDate;
    if SplitTimestamp(raw) == Some(Stamped(at, line)) {
      SplitShape(raw, at, line);
    }
    if date: seq<byte>, fraction: seq<byte> :|
      && IsDate(date) && AllDigits(fraction, 10) && at == TimeText(date, fraction)
      && Follows(raw, at, line)
    {
      ShapeSplits(raw, date, fraction, raw[|at|..]);
    }
  }

  lemma SplitShape(raw: seq<byte>, at: seq<byte>, line: seq<byte>)
    requires SplitTimestamp(raw) == Some(Stamped(at, line))
    ensures exists date: seq<byte>, fraction: seq<byte> ::
        && IsDate(date) && AllDigits(fraction, 10) && at == TimeText(date, fraction)
        && Follows(raw, at, line)
  {
    hide MatchesRow, IsDate, DigitPrefix, AllDigits;
    var date := raw[..19];
    DateIsARow(date);
    PrefixOfDigits(raw[20..]);
    var fraction := if raw[19] == LETTER_Z then [] else DigitPrefix(raw[20..], 10);
    assert AllDigits(fraction, 10) by { if raw[19] == LETTER_Z { NoDigits(); } }
    TimeIs(raw, date, fraction, at);
    FollowsIt(raw, at, line);
  }

  lemma NoDigits()
    ensures AllDigits([], 10)
  {
  }

  lemma TimeIs(raw: seq<byte>, date: seq<byte>, fraction: seq<byte>, at: seq<byte>)
    requires |raw| >= 20 && date == raw[..19] && fraction <= raw[20..]
    requires if fraction == [] then raw[19] == LETTER_Z && at == raw[..20]
             else raw[19] == DOT && 20 + |fraction| < |raw| && raw[20 + |fraction|] == LETTER_Z && at == raw[..21 + |fraction|]
    ensures at == TimeText(date, fraction) && raw == at + raw[|at|..]
  {
    if fraction != [] { assert raw[20..20 + |fraction|] == fraction; }
  }

  lemma FollowsIt(raw: seq<byte>, at: seq<byte>, line: seq<byte>)
    requires at <= raw && line == WithoutSpace(raw[|at|..])
    ensures Follows(raw, at, line)
  {
    var rest := raw[|at|..];
    assert raw == at + rest;
    if rest != [] && rest[0] == SPACE {
      assert rest == [32] + line;
      assert raw == at + [32] + line;
    }
  }

  lemma {:induction false} PrefixOfDigits(s: seq<byte>)
    ensures DigitPrefix(s, 10) <= s
  {
    if s != [] && IsDigit(s[0], 10) { PrefixOfDigits(s[1..]); }
  }

  lemma ShapeSplits(raw: seq<byte>, date: seq<byte>, fraction: seq<byte>, rest: seq<byte>)
    requires IsDate(date) && AllDigits(fraction, 10) && raw == TimeText(date, fraction) + rest
    ensures SplitTimestamp(raw) == Some(Stamped(TimeText(date, fraction), WithoutSpace(rest)))
  {
    hide MatchesRow;
    DateIsARow(date);
    assert raw[..19] == date;
    if fraction == [] {
      assert raw[19] == LETTER_Z && raw[..20] == TimeText(date, fraction) && raw[20..] == rest;
    } else {
      assert raw[19] == DOT && raw[20..] == fraction + ([LETTER_Z] + rest);
      RunOfDigits(fraction, [LETTER_Z] + rest, 10);
      var n := |fraction|;
      assert raw[20 + n] == LETTER_Z && raw[..21 + n] == TimeText(date, fraction) && raw[21 + n..] == rest;
    }
  }
}
