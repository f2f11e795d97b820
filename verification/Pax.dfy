/** The PAX record that carries a path too long for a header, and the scan that reads it. */
module Pax {
  import opened Bytes
  import opened TarFormat

  /* ── A length that counts its own digits ─────────────────────────── */

  function Counted(body: nat, n: nat): nat { body + |Digits(n, 10)| }

  lemma {:induction false} DigitsMonotone(a: nat, b: nat)
    requires a <= b
    ensures |Digits(a, 10)| <= |Digits(b, 10)|
    decreases b
  {
    if a >= 10 {
      DigitsMonotone(a / 10, b / 10);
    }
  }

  lemma {:induction false} DigitsAreFew(n: nat)
    ensures |Digits(n, 10)| <= n / 2 + 1
    decreases n
  {
    if n >= 10 {
      DigitsAreFew(n / 10);
    }
  }

  /** The least length, from `n` up, that equals the body and its own digits. */
  function LeastLength(body: nat, n: nat): (length: nat)
    requires n <= Counted(body, n)
    ensures length == Counted(body, length) && length >= n
    ensures forall m :: n <= m < length ==> m != Counted(body, m)
    decreases 2 * body + 3 - n
  {
    DigitsAreFew(n);
    if n == Counted(body, n) then n
    else
      DigitsMonotone(n, n + 1);
      LeastLength(body, n + 1)
  }

  /** Trying until it stops changing finds that least length. */
  method PaxLength(body: nat) returns (length: nat)
    ensures length == LeastLength(body, 0)
    ensures length == Counted(body, length)
    ensures forall m: nat :: m < length ==> m != Counted(body, m)
  {
    length := body;
    while Counted(body, length) != length
      invariant length <= Counted(body, length)
      invariant forall m: nat :: m < length ==> m != Counted(body, m)
      decreases 2 * body + 3 - length
    {
      DigitsAreFew(length);
      var next := Counted(body, length);
      forall m: nat | m < next ensures m != Counted(body, m) {
        if m >= length {
          DigitsMonotone(length, m);
        }
      }
      DigitsMonotone(length, next);
      length := next;
    }
    var least := LeastLength(body, 0);
    assert least == Counted(body, least);
  }

  /* ── The record ──────────────────────────────────────────────────── */

  function RecordBody(key: seq<byte>, value: seq<byte>): seq<byte> {
    [SPACE] + key + [EQUALS] + value + [LF]
  }

  /** "<length> <key>=<value>\n", the length counting the whole of it. */
  function PaxRecord(key: seq<byte>, value: seq<byte>): (record: seq<byte>)
    ensures |record| == LeastLength(|RecordBody(key, value)|, 0)
  {
    var body := RecordBody(key, value);
    Digits(LeastLength(|body|, 0), 10) + body
  }

  method WritePaxRecord(key: seq<byte>, value: seq<byte>) returns (record: seq<byte>)
    ensures record == PaxRecord(key, value)
  {
    var body := [SPACE] + key + [EQUALS] + value + [LF];
    var length := PaxLength(|body|);
    record := Digits(length, 10) + body;
  }

  /** A path's record: its own length in decimal digits, a space, "path=", the path and a newline. */
  lemma RecordIsSpelled(name: seq<byte>) returns (digits: seq<byte>)
    ensures AllDigits(digits, 10) && Value(digits, 10) == |PaxRecord(PATH_KEY, name)|
    ensures PaxRecord(PATH_KEY, name) == digits + [32, 112, 97, 116, 104, 61] + name + [10]
  {
    hide Digits, Value, LeastLength;
    digits := Digits(LeastLength(|RecordBody(PATH_KEY, name)|, 0), 10);
    ValueOfDigits(LeastLength(|RecordBody(PATH_KEY, name)|, 0), 10);
    assert RecordBody(PATH_KEY, name) == [32, 112, 97, 116, 104, 61] + name + [10];
  }

  lemma RecordIsShort(name: seq<byte>)
    ensures |PaxRecord(PATH_KEY, name)| <= 2 * |name| + 16
  {
    DigitsAreFew(LeastLength(|RecordBody(PATH_KEY, name)|, 0));
  }

  /* ── The scan ────────────────────────────────────────────────────── */

  /** Number of the text's seven-bit characters, when they are the digits a length is written with; None stands for NaN and
      whatever else is no length. */
  function LengthOf(text: seq<byte>): Option<nat> {
    var digits := Ascii(text);
    if digits != [] && AllDigits(digits, 10) then Some(Value(digits, 10)) else None
  }

  lemma LengthOfDigits(text: seq<byte>)
    requires text != [] && AllDigits(text, 10)
    ensures LengthOf(text) == Some(Value(text, 10))
  {
    forall i | 0 <= i < |text| ensures Ascii(text)[i] == text[i] { assert IsDigit(text[i], 10); }
    assert Ascii(text) == text;
  }

  /** One record: its length in the payload, and the path when it gives one. */
  datatype Record = Record(length: nat, path: Option<seq<byte>>)

  /** The length a record claims, when it is one that fits: it covers at least its own digits and ends inside the payload. */
  function ClaimedLength(payload: seq<byte>, offset: nat, space: nat): (r: Option<nat>)
    requires offset <= space < |payload|
    ensures r.Some? ==> space - offset < r.value <= |payload| - offset
  {
    match LengthOf(payload[offset..space])
    case None => None
    case Some(length) => if length <= space - offset || offset + length > |payload| then None else Some(length)
  }

  function PathIn(text: seq<byte>): Option<seq<byte>> {
    var equals := IndexOf(text, EQUALS, 0);
    if equals > 0 && text[..equals] == PATH_KEY then Some(text[equals + 1..]) else None
  }

  function ReadRecord(payload: seq<byte>, offset: nat): (r: Result<Record, Malformed>)
    requires offset < |payload|
    ensures r.Ok? ==> 0 < r.value.length <= |payload| - offset
  {
    var space := IndexOf(payload, SPACE, offset);
    if space == -1 then Err(MalformedExtendedHeader)
    else
      match ClaimedLength(payload, offset, space)
      case None => Err(MalformedExtendedHeader)
      case Some(length) =>
        var end := offset + length - 1;
        Ok(Record(length, PathIn(if space + 1 <= end then payload[space + 1..end] else [])))
  }

  /** The last path the records from `offset` on give, or `found` when they give none. */
  function PathFrom(payload: seq<byte>, offset: nat, found: Option<seq<byte>>): Result<Option<seq<byte>>, Malformed>
    requires offset <= |payload|
    decreases |payload| - offset
  {
    if offset == |payload| then Ok(found)
    else
      match ReadRecord(payload, offset)
      case Err(e) => Err(e)
      case Ok(record) => PathFrom(payload, offset + record.length, if record.path.Some? then record.path else found)
  }

  /** What a whole metadata payload says of the next entry's name. */
  function PathFromMetadata(kind: byte, payload: seq<byte>): Result<Option<seq<byte>>, Malformed> {
    if kind == TYPE_LONG_NAME then Ok(Some(CutAtFirstNul(payload)))
    else if kind != TYPE_PAX then Ok(None)
    else PathFrom(payload, 0, None)
  }

  method NameFromMetadata(kind: byte, payload: seq<byte>) returns (r: Result<Option<seq<byte>>, Malformed>)
    ensures r == PathFromMetadata(kind, payload)
  {
    hide ReadRecord;
    if kind == TYPE_LONG_NAME { return Ok(Some(CutAtFirstNul(payload))); }
    if kind != TYPE_PAX { return Ok(None); }
    var path: Option<seq<byte>> := None;
    var offset: nat := 0;
    while offset < |payload|
      invariant offset <= |payload|
      invariant PathFrom(payload, offset, path) == PathFromMetadata(kind, payload)
    {
      var record := ReadRecord(payload, offset);
      if record.Err? { return Err(record.error); }
      if record.value.path.Some? { path := record.value.path; }
      offset := offset + record.value.length;
    }
    return Ok(path);
  }

  /* ── What is written is what is read ─────────────────────────────── */

  lemma IndexOfFirst(s: seq<byte>, b: byte, from: nat, at: nat)
    requires from <= at < |s| && s[at] == b && forall i :: from <= i < at ==> s[i] != b
    ensures IndexOf(s, b, from) == at
  {
  }

  lemma DigitsHoldNoSpace(text: seq<byte>)
    requires AllDigits(text, 10)
    ensures forall i :: 0 <= i < |text| ==> text[i] != SPACE
  {
    forall i | 0 <= i < |text| ensures text[i] != SPACE { assert IsDigit(text[i], 10); }
  }

  /** One record anywhere in a payload is read whole: its length, and for the key "path" its value, whatever bytes the value holds. */
  lemma RecordReadsBack(before: seq<byte>, key: seq<byte>, value: seq<byte>, rest: seq<byte>)
    requires SPACE !in key && EQUALS !in key && key != []
    ensures ReadRecord(before + PaxRecord(key, value) + rest, |before|)
         == Ok(Record(|PaxRecord(key, value)|, if key == PATH_KEY then Some(value) else None))
  {
    hide IndexOf, Digits, Value, LeastLength, PathIn;
    var body, record := RecordBody(key, value), PaxRecord(key, value);
    var digits := Digits(|record|, 10);
    var text := key + [EQUALS] + value;
    var payload, offset := before + record + rest, |before|;
    var space := offset + |digits|;
    DigitsHoldNoSpace(digits);
    assert record == digits + ([SPACE] + text + [LF]);
    SpaceOfRecord(before, digits, text, rest);
    PartsOfRecord(before, digits, text, rest);
    assert payload == before + (digits + ([SPACE] + text + [LF])) + rest;
    ValueOfDigits(|record|, 10);
    LengthOfDigits(digits);
    assert LengthOf(digits) == Some(|record|);
    assert ClaimedLength(payload, offset, space) == Some(|record|);
    TextReadsBack(key, value);
  }

  lemma SpaceOfRecord(before: seq<byte>, digits: seq<byte>, text: seq<byte>, rest: seq<byte>)
    requires forall i :: 0 <= i < |digits| ==> digits[i] != SPACE
    ensures IndexOf(before + (digits + ([SPACE] + text + [LF])) + rest, SPACE, |before|) == |before| + |digits|
  {
    var payload, space := before + (digits + ([SPACE] + text + [LF])) + rest, |before| + |digits|;
    forall i | |before| <= i < space ensures payload[i] != SPACE {
      assert payload[i] == digits[i - |before|];
    }
    assert payload[space] == SPACE;
    IndexOfFirst(payload, SPACE, |before|, space);
  }

  lemma PartsOfRecord(before: seq<byte>, digits: seq<byte>, text: seq<byte>, rest: seq<byte>)
    ensures var payload, space := before + (digits + ([SPACE] + text + [LF])) + rest, |before| + |digits|;
      && payload[|before|..space] == digits
      && payload[space + 1..space + 1 + |text|] == text
  {
  }

  lemma TextReadsBack(key: seq<byte>, value: seq<byte>)
    requires EQUALS !in key && key != []
    ensures PathIn(key + [EQUALS] + value) == if key == PATH_KEY then Some(value) else None
  {
    var text := key + [EQUALS] + value;
    forall i | 0 <= i < |key| ensures text[i] != EQUALS { assert text[i] == key[i]; }
    IndexOfFirst(text, EQUALS, 0, |key|);
    assert text[..|key|] == key && text[|key| + 1..] == value;
  }

  /** The path of a written record comes back, for every value. */
  lemma PathReadsBack(value: seq<byte>)
    ensures PathFromMetadata(TYPE_PAX, PaxRecord(PATH_KEY, value)) == Ok(Some(value))
  {
    hide ReadRecord;
    RecordReadsBack([], PATH_KEY, value, []);
    var payload := PaxRecord(PATH_KEY, value);
    assert [] + payload + [] == payload;
    assert PathFrom(payload, |payload|, Some(value)) == Ok(Some(value));
  }

  /** Several records, as other tools write them: the last path among them is the one the next entry gets. */
  datatype Pair = Pair(key: seq<byte>, value: seq<byte>)

  function Records(pairs: seq<Pair>): seq<byte> {
    if pairs == [] then [] else PaxRecord(pairs[0].key, pairs[0].value) + Records(pairs[1..])
  }

  function LastPath(pairs: seq<Pair>, found: Option<seq<byte>>): Option<seq<byte>> {
    if pairs == [] then found
    else LastPath(pairs[1..], if pairs[0].key == PATH_KEY then Some(pairs[0].value) else found)
  }

  lemma OneRecordOn(payload: seq<byte>, offset: nat, found: Option<seq<byte>>, record: Record)
    requires offset < |payload| && ReadRecord(payload, offset) == Ok(record)
    ensures PathFrom(payload, offset, found)
         == PathFrom(payload, offset + record.length, if record.path.Some? then record.path else found)
  {
    hide ReadRecord;
  }

  lemma NoRecords(before: seq<byte>, found: Option<seq<byte>>)
    ensures PathFrom(before, |before|, found) == Ok(found)
  {
  }

  lemma {:induction false} RecordsReadBack(before: seq<byte>, pairs: seq<Pair>, found: Option<seq<byte>>)
    requires forall p :: p in pairs ==> p.key != [] && SPACE !in p.key && EQUALS !in p.key
    ensures PathFrom(before + Records(pairs), |before|, found) == Ok(LastPath(pairs, found))
    decreases |pairs|
  {
    hide ReadRecord, PathFrom, PaxRecord;
    if pairs == [] {
      assert before + [] == before;
      NoRecords(before, found);
    } else {
      var key, value := pairs[0].key, pairs[0].value;
      assert pairs[0] in pairs;
      var record, rest := PaxRecord(key, value), Records(pairs[1..]);
      var payload := before + record + rest;
      RecordReadsBack(before, key, value, rest);
      assert before + Records(pairs) == payload == (before + record) + rest;
      OneRecordOn(payload, |before|, found, Record(|record|, if key == PATH_KEY then Some(value) else None));
      RecordsReadBack(before + record, pairs[1..], if key == PATH_KEY then Some(value) else found);
    }
  }

  /* ── Which payloads are taken ────────────────────────────────────── */

  /** A record that covers itself: decimal digits in front of its first space, and their value is its length, past that space. */
  predicate CoversItself(record: seq<byte>) {
    exists space :: 0 < space < |record| && SaysItsLength(record, space)
  }

  predicate SaysItsLength(record: seq<byte>, space: nat)
    requires space < |record|
  {
    && record[space] == SPACE && (forall i :: 0 <= i < space ==> record[i] != SPACE && 48 <= record[i] % 128 < 58)
    && AllDigits(Ascii(record[..space]), 10) && Value(Ascii(record[..space]), 10) == |record|
  }

  lemma RecordIsTaken(before: seq<byte>, record: seq<byte>, rest: seq<byte>)
    requires CoversItself(record)
    ensures var r := ReadRecord(before + record + rest, |before|); r.Ok? && r.value.length == |record|
  {
    hide Value, AllDigits, PathIn, IndexOf;
    var space :| 0 < space < |record| && SaysItsLength(record, space);
    var payload := before + record + rest;
    assert forall i :: 0 <= i < |record| ==> payload[|before| + i] == record[i];
    IndexOfFirst(payload, SPACE, |before|, |before| + space);
    assert payload[|before|..|before| + space] == record[..space];
  }

  lemma TakenIsARecord(payload: seq<byte>, offset: nat)
    requires offset < |payload| && ReadRecord(payload, offset).Ok?
    ensures CoversItself(payload[offset..offset + ReadRecord(payload, offset).value.length])
  {
    hide Value, PathIn;
    var length := ReadRecord(payload, offset).value.length;
    var at := IndexOf(payload, SPACE, offset);
    var record, space := payload[offset..offset + length], at - offset;
    assert payload[offset..at] == record[..space];
    var digits := Ascii(record[..space]);
    forall i | 0 <= i < space ensures record[i] != SPACE && 48 <= record[i] % 128 < 58 {
      assert record[i] == payload[offset + i] && IsDigit(digits[i], 10);
    }
    assert SaysItsLength(record, space);
  }

  predicate AllCover(records: seq<seq<byte>>) { forall i :: 0 <= i < |records| ==> CoversItself(records[i]) }

  lemma {:induction false} RecordsAreTaken(before: seq<byte>, records: seq<seq<byte>>, found: Option<seq<byte>>)
    requires AllCover(records)
    ensures PathFrom(before + Concat(records), |before|, found).Ok?
    decreases |records|
  {
    hide CoversItself, ReadRecord;
    if records == [] {
      assert before + Concat(records) == before;
    } else {
      var payload := before + Concat(records);
      assert payload == before + records[0] + Concat(records[1..]);
      RecordIsTaken(before, records[0], Concat(records[1..]));
      assert |records[0]| > 0 by { NotEmpty(records[0]); }
      var path := ReadRecord(payload, |before|).value.path;
      RecordsAreTaken(before + records[0], records[1..], if path.Some? then path else found);
    }
  }

  lemma NotEmpty(record: seq<byte>)
    requires CoversItself(record)
    ensures |record| > 0
  {
  }

  lemma {:induction false} TakenAreRecords(payload: seq<byte>, offset: nat, found: Option<seq<byte>>) returns (records: seq<seq<byte>>)
    requires offset <= |payload| && PathFrom(payload, offset, found).Ok?
    ensures AllCover(records) && Concat(records) == payload[offset..]
    decreases |payload| - offset
  {
    hide CoversItself, ReadRecord;
    if offset == |payload| {
      records := [];
    } else {
      var record := ReadRecord(payload, offset).value;
      TakenIsARecord(payload, offset);
      var next := offset + record.length;
      var more := TakenAreRecords(payload, next, if record.path.Some? then record.path else found);
      records := [payload[offset..next]] + more;
      assert records[1..] == more && payload[offset..next] + payload[next..] == payload[offset..];
    }
  }

  /** An extended header is taken exactly when all of it is records that each cover themselves, and is malformed otherwise. */
  lemma TakenIff(payload: seq<byte>)
    ensures PathFromMetadata(120, payload).Ok? <==>
      exists records: seq<seq<byte>> :: AllCover(records) && Concat(records) == payload
  {
    hide AllCover;
    if PathFromMetadata(120, payload).Ok? {
      var records := TakenAreRecords(payload, 0, None);
      assert payload[0..] == payload;
    }
    if records: seq<seq<byte>> :| AllCover(records) && Concat(records) == payload {
      RecordsAreTaken([], records, None);
      assert [] + payload == payload;
    }
  }
}
