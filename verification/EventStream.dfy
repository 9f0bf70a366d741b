// The binary event-stream parser of scripts/release_source_watch.py (SourceWatch.check).
module EventStream {
  import opened Wrappers
  import opened SourceRules

  type Byte = b: int | 0 <= b < 256

  type Word32 = n: int | 0 <= n < 0x1_0000_0000

  type Signed32 = n: int | -0x8000_0000 <= n < 0x8000_0000

  datatype StreamError =
    | NotActive | StreamLost | TruncatedHeader | TruncatedName | OverflowOrLost | UnknownWatch | SourceChanged

  // One decoded record; `name` is the whole padded name field.
  datatype Event = Event(wd: Signed32, mask: Word32, cookie: Word32, name: seq<Byte>)

  // Directory prefixes by watch descriptor.
  type Watches = map<int, string>

  // ---------- struct "iIII", native little-endian ----------

  function Encode32(n: Word32): (bytes: seq<Byte>)
    ensures |bytes| == 4
  {
    [n % 256, n / 256 % 256, n / 65536 % 256, n / 16777216]
  }

  // The word that starts at position k.
  function WordAt(bytes: seq<Byte>, k: nat): Word32
    requires k + 4 <= |bytes|
  {
    var b0: int, b1: int, b2: int, b3: int := bytes[k], bytes[k + 1], bytes[k + 2], bytes[k + 3];
    b0 + 256 * b1 + 65536 * b2 + 16777216 * b3
  }

  function ToSigned(n: Word32): Signed32 {
    if n < 0x8000_0000 then n else n - 0x1_0000_0000
  }

  function ToUnsigned(n: Signed32): Word32 {
    if n >= 0 then n else n + 0x1_0000_0000
  }

  lemma WordOfEncode(n: Word32, bytes: seq<Byte>, k: nat)
    requires k + 4 <= |bytes| && bytes[k..k + 4] == Encode32(n)
    ensures WordAt(bytes, k) == n
  {
    var word := bytes[k..k + 4];
    assert word[0] == bytes[k] && word[1] == bytes[k + 1] && word[2] == bytes[k + 2] && word[3] == bytes[k + 3];
    var a, b, c := n / 256, n / 65536, n / 16777216;
    assert a / 256 == b && b / 256 == c;
    assert n == 256 * a + n % 256 && a == 256 * b + a % 256 && b == 256 * c + b % 256;
  }

  lemma EncodeOfWord(bytes: seq<Byte>, k: nat)
    requires k + 4 <= |bytes|
    ensures Encode32(WordAt(bytes, k)) == bytes[k..k + 4]
  {
    var n: int := WordAt(bytes, k);
    var b0: int, b1: int, b2: int, b3: int := bytes[k], bytes[k + 1], bytes[k + 2], bytes[k + 3];
    DigitsOf(n, b0, b1, b2, b3);
  }

  lemma DigitsOf(n: int, b0: int, b1: int, b2: int, b3: int)
    requires 0 <= b0 < 256 && 0 <= b1 < 256 && 0 <= b2 < 256 && 0 <= b3 < 256
    requires n == b0 + 256 * b1 + 65536 * b2 + 16777216 * b3
    ensures n % 256 == b0 && n / 256 % 256 == b1 && n / 65536 % 256 == b2 && n / 16777216 == b3
  {
    var a, b := b1 + 256 * b2 + 65536 * b3, b2 + 256 * b3;
    assert n == 256 * a + b0 && a == 256 * b + b1 && b == 256 * b3 + b2;
    assert n / 256 == a && n / 65536 == b;
  }

  // ---------- Serialised events ----------

  const HEADER := 16

  function Serialize(e: Event): seq<Byte>
    requires |e.name| < 0x1_0000_0000
  {
    Encode32(ToUnsigned(e.wd)) + Encode32(e.mask) + Encode32(e.cookie) + Encode32(|e.name|) + e.name
  }

  ghost predicate Representable(events: seq<Event>) {
    forall i :: 0 <= i < |events| ==> |events[i].name| < 0x1_0000_0000
  }

  ghost function SerializeAll(events: seq<Event>): seq<Byte>
    requires Representable(events)
  {
    if events == [] then [] else Serialize(events[0]) + SerializeAll(events[1..])
  }

  // ---------- Which records are harmless ----------

  // Bytes up to the first NUL, as characters; os.fsdecode maps each byte to one code point and back.
  function NameOf(field: seq<Byte>): string {
    if field == [] || field[0] == 0 then "" else [field[0] as char] + NameOf(field[1..])
  }

  // mask & (IN_Q_OVERFLOW | the lost-watch bit)
  predicate LostBits(mask: Word32) {
    mask / 0x4000 % 2 == 1 || mask / 0x8000 % 2 == 1
  }

  function Judge(e: Event, watches: Watches): Option<StreamError> {
    if LostBits(e.mask) then Some(OverflowOrLost)
    else if e.wd !in watches then Some(UnknownWatch)
    else if !Excluded(watches[e.wd] + NameOf(e.name)) then Some(SourceChanged)
    else None
  }

  // The parser asks a verdict of every record: an error, or None to go on.
  type Verdict = Event -> Option<StreamError>

  function Judging(watches: Watches): Verdict { (e: Event) => Judge(e, watches) }

  ghost predicate Harmless(events: seq<Event>, judge: Verdict) {
    forall i :: 0 <= i < |events| ==> judge(events[i]) == None
  }

  // ---------- The parser ----------

  // The record at an offset, given the length of its name field.
  function EventAt(buffer: seq<Byte>, offset: nat, length: nat): Event
    requires offset + HEADER + length <= |buffer|
  {
    Event(ToSigned(WordAt(buffer, offset)), WordAt(buffer, offset + 4), WordAt(buffer, offset + 8),
      buffer[offset + HEADER..offset + HEADER + length])
  }

  // The records from an offset on, or the first error.
  function Parse(buffer: seq<Byte>, offset: nat, judge: Verdict): Result<seq<Event>, StreamError>
    requires offset <= |buffer|
    decreases |buffer| - offset
  {
    if offset == |buffer| then Ok([])
    else if |buffer| - offset < HEADER then Err(TruncatedHeader)
    else
      var length := WordAt(buffer, offset + 12);
      if length > |buffer| - offset - HEADER then Err(TruncatedName)
      else
        var verdict := judge(EventAt(buffer, offset, length));
        if verdict.Some? then Err(verdict.value)
        else
          var tail := Parse(buffer, offset + HEADER + length, judge);
          if tail.Err? then tail else Ok([EventAt(buffer, offset, length)] + tail.value)
  }

  lemma WordInside(buffer: seq<Byte>, offset: nat, bytes: seq<Byte>, k: nat, n: Word32)
    requires offset + |bytes| <= |buffer| && buffer[offset..offset + |bytes|] == bytes
    requires k + 4 <= |bytes| && bytes[k..k + 4] == Encode32(n)
    ensures WordAt(buffer, offset + k) == n
  {
    assert forall j :: 0 <= j < |bytes| ==> bytes[j] == buffer[offset + j];
    WordOfEncode(n, bytes, k);
  }

  // A serialised record is read back from where it lies.
  lemma EventOfSerialize(buffer: seq<Byte>, offset: nat, e: Event, bytes: seq<Byte>)
    requires |e.name| < 0x1_0000_0000 && bytes == Serialize(e)
    requires offset + |bytes| <= |buffer| && buffer[offset..offset + |bytes|] == bytes
    ensures WordAt(buffer, offset + 12) == |e.name| && |bytes| == HEADER + |e.name|
    ensures EventAt(buffer, offset, |e.name|) == e
  {
    WordInside(buffer, offset, bytes, 0, ToUnsigned(e.wd));
    WordInside(buffer, offset, bytes, 4, e.mask);
    WordInside(buffer, offset, bytes, 8, e.cookie);
    WordInside(buffer, offset, bytes, 12, |e.name|);
    assert buffer[offset + HEADER..offset + HEADER + |e.name|] == bytes[HEADER..];
  }

  // And a record that is read is a serialised one.
  lemma SerializeOfEvent(buffer: seq<Byte>, offset: nat, length: nat)
    requires offset + HEADER + length <= |buffer| && length == WordAt(buffer, offset + 12)
    ensures Serialize(EventAt(buffer, offset, length)) == buffer[offset..offset + HEADER + length]
  {
    EncodeOfWord(buffer, offset);
    EncodeOfWord(buffer, offset + 4);
    EncodeOfWord(buffer, offset + 8);
    EncodeOfWord(buffer, offset + 12);
  }

  // One record of the parser.
  lemma ParseStep(buffer: seq<Byte>, offset: nat, length: nat, event: Event, judge: Verdict)
    requires offset + HEADER + length <= |buffer| && length == WordAt(buffer, offset + 12)
    requires event == EventAt(buffer, offset, length)
    ensures judge(event).Some? ==> Parse(buffer, offset, judge) == Err(judge(event).value)
    ensures judge(event).None? ==>
      var tail := Parse(buffer, offset + HEADER + length, judge);
      Parse(buffer, offset, judge) == if tail.Err? then tail else Ok([event] + tail.value)
  {
  }

  // From the offset on the buffer is a serialised list of events.
  ghost predicate Carries(buffer: seq<Byte>, offset: nat, events: seq<Event>) {
    offset <= |buffer| && Representable(events) && buffer[offset..] == SerializeAll(events)
  }

  ghost predicate RecordIs(buffer: seq<Byte>, offset: nat, e: Event) {
    && offset + HEADER + |e.name| <= |buffer|
    && WordAt(buffer, offset + 12) == |e.name| && EventAt(buffer, offset, |e.name|) == e
  }

  lemma FirstRecord(buffer: seq<Byte>, offset: nat, events: seq<Event>) returns (next: nat)
    requires Carries(buffer, offset, events) && events != []
    ensures next == offset + HEADER + |events[0].name| <= |buffer| && Carries(buffer, next, events[1..])
    ensures RecordIs(buffer, offset, events[0])
  {
    var bytes, rest := Serialize(events[0]), SerializeAll(events[1..]);
    next := offset + |bytes|;
    assert buffer[offset..] == bytes + rest;
    assert buffer[offset..next] == bytes && buffer[next..] == rest;
    EventOfSerialize(buffer, offset, events[0], bytes);
  }

  ghost predicate Decodes(buffer: seq<Byte>, offset: nat, events: seq<Event>, judge: Verdict) {
    offset <= |buffer| && Parse(buffer, offset, judge) == Ok(events)
  }

  lemma NothingCarried(buffer: seq<Byte>, offset: nat, judge: Verdict)
    requires Carries(buffer, offset, [])
    ensures Decodes(buffer, offset, [], judge)
  {
    assert |buffer[offset..]| == 0;
  }

  lemma DecodesOneMore(buffer: seq<Byte>, offset: nat, events: seq<Event>, next: nat, judge: Verdict)
    requires events != [] && RecordIs(buffer, offset, events[0]) && judge(events[0]).None?
    requires next == offset + HEADER + |events[0].name| && Decodes(buffer, next, events[1..], judge)
    ensures Decodes(buffer, offset, events, judge)
  {
    ParseStep(buffer, offset, |events[0].name|, events[0], judge);
    assert events == [events[0]] + events[1..];
  }

  // Any serialised list of harmless events decodes back to itself.
  lemma {:induction false} ParseOfSerialized(buffer: seq<Byte>, offset: nat, events: seq<Event>, judge: Verdict)
    requires Carries(buffer, offset, events) && Harmless(events, judge)
    ensures Decodes(buffer, offset, events, judge)
    decreases |events|
  {
    if events == [] {
      NothingCarried(buffer, offset, judge);
    } else {
      var next := FirstRecord(buffer, offset, events);
      ParseOfSerialized(buffer, next, events[1..], judge);
      DecodesOneMore(buffer, offset, events, next, judge);
    }
  }

  lemma AcceptedStarts(buffer: seq<Byte>, offset: nat, judge: Verdict) returns (event: Event, next: nat)
    requires offset < |buffer| && Parse(buffer, offset, judge).Ok?
    ensures RecordIs(buffer, offset, event) && judge(event).None?
    ensures next == offset + HEADER + |event.name| && Parse(buffer, next, judge).Ok?
    ensures Parse(buffer, offset, judge).value == [event] + Parse(buffer, next, judge).value
  {
    var length := WordAt(buffer, offset + 12);
    event, next := EventAt(buffer, offset, length), offset + HEADER + length;
    ParseStep(buffer, offset, length, event, judge);
  }

  lemma CarriesOneMore(buffer: seq<Byte>, offset: nat, event: Event, next: nat, tail: seq<Event>)
    requires RecordIs(buffer, offset, event) && next == offset + HEADER + |event.name| && Carries(buffer, next, tail)
    ensures Carries(buffer, offset, [event] + tail)
  {
    SerializeOfEvent(buffer, offset, |event.name|);
    assert ([event] + tail)[1..] == tail;
    assert buffer[offset..next] + buffer[next..] == buffer[offset..];
  }

  // What is accepted is such a serialisation, down to the last byte.
  lemma {:induction false} AcceptedIsSerialized(buffer: seq<Byte>, offset: nat, judge: Verdict)
    requires offset <= |buffer| && Parse(buffer, offset, judge).Ok?
    ensures var events := Parse(buffer, offset, judge).value;
      Carries(buffer, offset, events) && Harmless(events, judge)
    decreases |buffer| - offset
  {
    if offset < |buffer| {
      var event, next := AcceptedStarts(buffer, offset, judge);
      AcceptedIsSerialized(buffer, next, judge);
      CarriesOneMore(buffer, offset, event, next, Parse(buffer, next, judge).value);
    }
  }

  // Accepted exactly when the buffer is a concatenation of complete harmless records.
  lemma ParserIsExact(buffer: seq<Byte>, judge: Verdict)
    ensures Parse(buffer, 0, judge).Ok? <==>
      exists events :: Representable(events) && Harmless(events, judge) && SerializeAll(events) == buffer
  {
    assert buffer[0..] == buffer;
    if Parse(buffer, 0, judge).Ok? {
      AcceptedIsSerialized(buffer, 0, judge);
    }
    if events :| Representable(events) && Harmless(events, judge) && SerializeAll(events) == buffer {
      ParseOfSerialized(buffer, 0, events, judge);
    }
  }

  ghost predicate AllExcluded(events: seq<Event>, watches: Watches) {
    forall i :: 0 <= i < |events| ==>
      && events[i].wd in watches && !LostBits(events[i].mask)
      && Excluded(watches[events[i].wd] + NameOf(events[i].name))
  }

  // In the watch's own terms: known watches, no overflow or lost bit, and excluded paths only.
  lemma AcceptedIffAllExcluded(buffer: seq<Byte>, watches: Watches)
    ensures Parse(buffer, 0, Judging(watches)).Ok? <==>
      exists events :: Representable(events) && AllExcluded(events, watches) && SerializeAll(events) == buffer
  {
    ParserIsExact(buffer, Judging(watches));
    forall events: seq<Event> ensures Harmless(events, Judging(watches)) <==> AllExcluded(events, watches) {
      HarmlessIsExcluded(events, watches);
    }
  }

  lemma HarmlessIsExcluded(events: seq<Event>, watches: Watches)
    ensures Harmless(events, Judging(watches)) <==> AllExcluded(events, watches)
  {
    assert forall e: Event :: Judging(watches)(e) == Judge(e, watches);
  }

  // Serialisation is injective on harmless lists, so the decoded events are the only ones possible.
  lemma SerializationIsInjective(a: seq<Event>, b: seq<Event>, judge: Verdict)
    requires Representable(a) && Representable(b) && Harmless(a, judge) && Harmless(b, judge)
    requires SerializeAll(a) == SerializeAll(b)
    ensures a == b
  {
    var buffer := SerializeAll(a);
    assert buffer[0..] == buffer;
    ParseOfSerialized(buffer, 0, a, judge);
    ParseOfSerialized(buffer, 0, b, judge);
  }

  // ---------- The same in bytes ----------

  // The name is what stands before the first NUL, or the whole field.
  lemma {:induction false} NameEndsAtNul(field: seq<Byte>)
    ensures var name := NameOf(field);
      && |name| <= |field| && (|name| < |field| ==> field[|name|] == 0)
      && forall k :: 0 <= k < |name| ==> field[k] != 0 && name[k] == field[k] as char
  {
    if field != [] && field[0] != 0 {
      NameEndsAtNul(field[1..]);
    }
  }

  lemma Parity(high: int, q: int)
    ensures (4 * high + q) % 2 == q % 2
  {
    var even := 2 * high;
    assert 4 * high + q == 2 * even + q;
  }

  // The quotients of a word by the two bits, and what is below them.
  lemma LowHalf(n: int, high: int, q: int, r: int)
    requires n == 0x1_0000 * high + 0x4000 * q + r && 0 <= q < 4 && 0 <= r < 0x4000
    ensures n % 0x1_0000 == 0x4000 * q + r && n / 0x8000 == 2 * high + q / 2
  {
  }

  // Bits 14 and 15: the queue overflowed, or the watch is gone.
  lemma LostBitsAreTwo(mask: Word32)
    ensures LostBits(mask) <==> mask % 0x1_0000 >= 0x4000
  {
    var quarters := mask / 0x4000;
    var high, q, r := quarters / 4, quarters % 4, mask % 0x4000;
    LowHalf(mask, high, q, r);
    Parity(high, q);
  }

  // Four bytes at k, the lowest first.
  predicate StoredAt(bytes: seq<Byte>, k: nat, value: int) {
    && k + 4 <= |bytes|
    && var b0: int, b1: int, b2: int, b3: int := bytes[k], bytes[k + 1], bytes[k + 2], bytes[k + 3];
      value == b0 + 0x100 * b1 + 0x1_0000 * b2 + 0x100_0000 * b3
  }

  lemma EncodeStores(n: Word32, before: seq<Byte>, after: seq<Byte>)
    ensures StoredAt(before + Encode32(n) + after, |before|, n)
  {
    var bytes := before + Encode32(n) + after;
    assert bytes[|before|..|before| + 4] == Encode32(n);
    WordOfEncode(n, bytes, |before|);
  }

  // A record: descriptor in two's complement, mask, cookie and name length at 0, 4, 8 and 12, the name from 16.
  lemma RecordLayout(e: Event)
    requires |e.name| < 0x1_0000_0000
    ensures var bytes := Serialize(e);
      && |bytes| == 16 + |e.name| && bytes[16..] == e.name
      && StoredAt(bytes, 0, if e.wd < 0 then e.wd + 0x1_0000_0000 else e.wd)
      && StoredAt(bytes, 4, e.mask) && StoredAt(bytes, 8, e.cookie) && StoredAt(bytes, 12, |e.name|)
  {
    var wd, mask, cookie, size :=
      Encode32(ToUnsigned(e.wd)), Encode32(e.mask), Encode32(e.cookie), Encode32(|e.name|);
    EncodeStores(ToUnsigned(e.wd), [], mask + cookie + size + e.name);
    EncodeStores(e.mask, wd, cookie + size + e.name);
    EncodeStores(e.cookie, wd + mask, size + e.name);
    EncodeStores(|e.name|, wd + mask + cookie, e.name);
    assert Serialize(e) == [] + wd + (mask + cookie + size + e.name);
    assert Serialize(e) == wd + mask + (cookie + size + e.name);
    assert Serialize(e) == wd + mask + cookie + (size + e.name);
  }

  // ---------- The first error ----------

  // What stops the parser at an offset: a short header, a name past the end, or a record that is refused.
  ghost predicate StopsAt(buffer: seq<Byte>, offset: nat, judge: Verdict, error: StreamError) {
    && offset < |buffer|
    && (|| (|buffer| < offset + 16 && error == TruncatedHeader)
        || (offset + 16 <= |buffer| < offset + 16 + WordAt(buffer, offset + 12) && error == TruncatedName)
        || exists e :: RecordIs(buffer, offset, e) && judge(e) == Some(error))
  }

  // From the offset to the end these events are serialised.
  ghost predicate Spans(buffer: seq<Byte>, offset: nat, end: nat, events: seq<Event>) {
    offset <= end <= |buffer| && Representable(events) && buffer[offset..end] == SerializeAll(events)
  }

  lemma SpansOneMore(buffer: seq<Byte>, offset: nat, event: Event, next: nat, end: nat, tail: seq<Event>)
    requires RecordIs(buffer, offset, event) && next == offset + HEADER + |event.name| && Spans(buffer, next, end, tail)
    ensures Spans(buffer, offset, end, [event] + tail)
  {
    SerializeOfEvent(buffer, offset, |event.name|);
    assert ([event] + tail)[1..] == tail;
    assert buffer[offset..next] + buffer[next..end] == buffer[offset..end];
  }

  lemma FirstSpanned(buffer: seq<Byte>, offset: nat, end: nat, events: seq<Event>) returns (next: nat)
    requires Spans(buffer, offset, end, events) && events != []
    ensures next == offset + HEADER + |events[0].name| <= end && Spans(buffer, next, end, events[1..])
    ensures RecordIs(buffer, offset, events[0])
  {
    var bytes, rest := Serialize(events[0]), SerializeAll(events[1..]);
    next := offset + |bytes|;
    var spanned := buffer[offset..end];
    assert spanned == bytes + rest;
    assert buffer[offset..next] == spanned[..|bytes|] && buffer[next..end] == spanned[|bytes|..];
    EventOfSerialize(buffer, offset, events[0], bytes);
  }

  ghost predicate FailsWith(buffer: seq<Byte>, offset: nat, judge: Verdict, error: StreamError) {
    offset <= |buffer| && Parse(buffer, offset, judge) == Err(error)
  }

  lemma StopsIsFailure(buffer: seq<Byte>, offset: nat, judge: Verdict, error: StreamError)
    requires StopsAt(buffer, offset, judge, error)
    ensures FailsWith(buffer, offset, judge, error)
  {
    if e :| RecordIs(buffer, offset, e) && judge(e) == Some(error) {
      ParseStep(buffer, offset, |e.name|, e, judge);
    }
  }

  lemma FailureGoesBack(buffer: seq<Byte>, offset: nat, event: Event, next: nat, judge: Verdict, error: StreamError)
    requires RecordIs(buffer, offset, event) && judge(event).None?
    requires next == offset + HEADER + |event.name| && FailsWith(buffer, next, judge, error)
    ensures FailsWith(buffer, offset, judge, error)
  {
    ParseStep(buffer, offset, |event.name|, event, judge);
  }

  // After harmless records the first thing that stops the parser is its error.
  lemma {:induction false} StopIsTheError(
    buffer: seq<Byte>, offset: nat, end: nat, events: seq<Event>, judge: Verdict, error: StreamError)
    requires Spans(buffer, offset, end, events) && Harmless(events, judge) && StopsAt(buffer, end, judge, error)
    ensures FailsWith(buffer, offset, judge, error)
    decreases |events|
  {
    if events == [] {
      assert |buffer[offset..end]| == 0;
      StopsIsFailure(buffer, offset, judge, error);
    } else {
      var next := FirstSpanned(buffer, offset, end, events);
      StopIsTheError(buffer, next, end, events[1..], judge, error);
      FailureGoesBack(buffer, offset, events[0], next, judge, error);
    }
  }

  lemma FailureStarts(buffer: seq<Byte>, offset: nat, judge: Verdict, error: StreamError)
      returns (event: Event, next: nat)
    requires FailsWith(buffer, offset, judge, error) && !StopsAt(buffer, offset, judge, error)
    ensures RecordIs(buffer, offset, event) && judge(event).None?
    ensures next == offset + HEADER + |event.name| && FailsWith(buffer, next, judge, error)
  {
    var length := WordAt(buffer, offset + 12);
    event, next := EventAt(buffer, offset, length), offset + HEADER + length;
    assert RecordIs(buffer, offset, event);
    ParseStep(buffer, offset, length, event, judge);
  }

  // And an error always has such a cause.
  lemma {:induction false} ErrorHasAStop(buffer: seq<Byte>, offset: nat, judge: Verdict, error: StreamError)
      returns (end: nat, events: seq<Event>)
    requires FailsWith(buffer, offset, judge, error)
    ensures Spans(buffer, offset, end, events) && Harmless(events, judge) && StopsAt(buffer, end, judge, error)
    decreases |buffer| - offset
  {
    if StopsAt(buffer, offset, judge, error) {
      end, events := offset, [];
    } else {
      var event, next := FailureStarts(buffer, offset, judge, error);
      var tail;
      end, tail := ErrorHasAStop(buffer, next, judge, error);
      SpansOneMore(buffer, offset, event, next, end, tail);
      events := [event] + tail;
    }
  }

  // The cause in the watch's own terms, in the order in which the checks are made.
  ghost predicate Cause(buffer: seq<Byte>, offset: nat, watches: Watches, error: StreamError) {
    match error
    case TruncatedHeader => offset < |buffer| < offset + 16
    case TruncatedName => offset + 16 <= |buffer| < offset + 16 + WordAt(buffer, offset + 12)
    case OverflowOrLost => exists e :: RecordIs(buffer, offset, e) && e.mask % 0x1_0000 >= 0x4000
    case UnknownWatch => exists e ::
      RecordIs(buffer, offset, e) && e.mask % 0x1_0000 < 0x4000 && e.wd !in watches
    case SourceChanged => exists e ::
      && RecordIs(buffer, offset, e) && e.mask % 0x1_0000 < 0x4000 && e.wd in watches
      && !Excluded(watches[e.wd] + NameOf(e.name))
    case _ => false
  }

  lemma JudgedByCause(e: Event, watches: Watches)
    ensures var r := Judging(watches)(e);
      && (r == Some(OverflowOrLost) <==> e.mask % 0x1_0000 >= 0x4000)
      && (r == Some(UnknownWatch) <==> e.mask % 0x1_0000 < 0x4000 && e.wd !in watches)
      && (r == Some(SourceChanged) <==>
          e.mask % 0x1_0000 < 0x4000 && e.wd in watches && !Excluded(watches[e.wd] + NameOf(e.name)))
      && (r.Some? ==> r.value.OverflowOrLost? || r.value.UnknownWatch? || r.value.SourceChanged?)
  {
    LostBitsAreTwo(e.mask);
  }

  lemma StopsByCause(buffer: seq<Byte>, offset: nat, watches: Watches, error: StreamError)
    ensures StopsAt(buffer, offset, Judging(watches), error) <==> Cause(buffer, offset, watches, error)
  {
    forall e: Event ensures Judging(watches)(e) == Judge(e, watches) {
      JudgedByCause(e, watches);
    }
    if StopsAt(buffer, offset, Judging(watches), error) {
      if e :| RecordIs(buffer, offset, e) && Judging(watches)(e) == Some(error) {
        JudgedByCause(e, watches);
      }
    }
    if Cause(buffer, offset, watches, error) && !error.TruncatedHeader? && !error.TruncatedName? {
      var e :| RecordIs(buffer, offset, e) && (error.OverflowOrLost? ==> e.mask % 0x1_0000 >= 0x4000)
        && (error.UnknownWatch? ==> e.mask % 0x1_0000 < 0x4000 && e.wd !in watches)
        && (error.SourceChanged? ==>
              e.mask % 0x1_0000 < 0x4000 && e.wd in watches && !Excluded(watches[e.wd] + NameOf(e.name)));
      JudgedByCause(e, watches);
    }
  }

  // A buffer is refused with an error if and only if that error's cause follows directly on complete records that are
  // all excluded.
  lemma FirstErrorIsExact(buffer: seq<Byte>, watches: Watches, error: StreamError)
    ensures Parse(buffer, 0, Judging(watches)) == Err(error) <==> exists end: nat, events ::
      Spans(buffer, 0, end, events) && AllExcluded(events, watches) && Cause(buffer, end, watches, error)
  {
    if Parse(buffer, 0, Judging(watches)) == Err(error) {
      var end, events := ErrorHasAStop(buffer, 0, Judging(watches), error);
      HarmlessIsExcluded(events, watches);
      StopsByCause(buffer, end, watches, error);
    }
    if end: nat, events :|
      Spans(buffer, 0, end, events) && AllExcluded(events, watches) && Cause(buffer, end, watches, error)
    {
      HarmlessIsExcluded(events, watches);
      StopsByCause(buffer, end, watches, error);
      StopIsTheError(buffer, 0, end, events, Judging(watches), error);
    }
  }

  // ---------- The loops of the source ----------

  function ErrorOf(r: Result<seq<Event>, StreamError>): Option<StreamError> {
    if r.Ok? then None else Some(r.error)
  }

  // A read of no bytes means that the stream is lost.
  ghost function BufferError(buffer: seq<Byte>, judge: Verdict): Option<StreamError> {
    if buffer == [] then Some(StreamLost) else ErrorOf(Parse(buffer, 0, judge))
  }

  // `whole` is what the parser has to say of the rest from this offset on.
  ghost predicate SaysOfRest(buffer: seq<Byte>, offset: nat, judge: Verdict, whole: Option<StreamError>) {
    offset <= |buffer| && ErrorOf(Parse(buffer, offset, judge)) == whole
  }

  lemma SaysAfterRecord(buffer: seq<Byte>, offset: nat, length: nat, event: Event, judge: Verdict,
                        whole: Option<StreamError>)
    requires offset + HEADER + length <= |buffer| && length == WordAt(buffer, offset + 12)
    requires event == EventAt(buffer, offset, length) && SaysOfRest(buffer, offset, judge, whole)
    ensures judge(event).None? ==> SaysOfRest(buffer, offset + HEADER + length, judge, whole)
    ensures judge(event).Some? ==> judge(event) == whole
  {
    ParseStep(buffer, offset, length, event, judge);
  }

  lemma SaysAtEnd(buffer: seq<Byte>, offset: nat, judge: Verdict, whole: Option<StreamError>)
    requires SaysOfRest(buffer, offset, judge, whole)
    ensures offset == |buffer| ==> whole == None
    ensures offset < |buffer| < offset + HEADER ==> whole == Some(TruncatedHeader)
    ensures offset + HEADER <= |buffer| && WordAt(buffer, offset + 12) > |buffer| - offset - HEADER ==>
      whole == Some(TruncatedName)
  {
  }

  class SourceWatch {
    var active: bool
    var directories: Watches

    // One buffer: offset moves over the records, the first bad one stops the check.
    method CheckBuffer(events: seq<Byte>) returns (error: Option<StreamError>)
      ensures error == ErrorOf(Parse(events, 0, Judging(directories)))
    {
      ghost var whole := ErrorOf(Parse(events, 0, Judging(directories)));
      var offset := 0;
      while offset < |events|
        invariant 0 <= offset <= |events| && SaysOfRest(events, offset, Judging(directories), whole)
        decreases |events| - offset
      {
        error, offset := CheckRecord(events, offset, whole);
        if error.Some? { return; }
      }
      SaysAtEnd(events, offset, Judging(directories), whole);
      error := None;
    }

    // The loop body: one record, and the offset after it.
    method CheckRecord(events: seq<Byte>, start: nat, ghost whole: Option<StreamError>)
      returns (error: Option<StreamError>, offset: nat)
      requires start < |events| && SaysOfRest(events, start, Judging(directories), whole)
      ensures error.Some? ==> error == whole
      ensures error.None? ==> start < offset <= |events| && SaysOfRest(events, offset, Judging(directories), whole)
    {
      offset := start;
      SaysAtEnd(events, start, Judging(directories), whole);
      if |events| - offset < HEADER { return Some(TruncatedHeader), offset; }
      var wd := ToSigned(WordAt(events, offset));
      var mask := WordAt(events, offset + 4);
      var cookie := WordAt(events, offset + 8);
      var length := WordAt(events, offset + 12);
      offset := offset + HEADER;
      if length > |events| - offset { return Some(TruncatedName), offset; }
      var name := events[offset..offset + length];
      ghost var event := Event(wd, mask, cookie, name);
      SaysAfterRecord(events, start, length, event, Judging(directories), whole);
      offset := offset + length;
      error := RecordError(wd, mask, name, event);
    }

    method RecordError(wd: Signed32, mask: Word32, name: seq<Byte>, ghost event: Event)
      returns (error: Option<StreamError>)
      requires event.wd == wd && event.mask == mask && event.name == name
      ensures error == Judging(directories)(event)
    {
      if LostBits(mask) { return Some(OverflowOrLost); }
      if wd !in directories { return Some(UnknownWatch); }
      if !Excluded(directories[wd] + NameOf(name)) { return Some(SourceChanged); }
      error := None;
    }

    // Reads until the descriptor would block; `buffers` is what it yields before that.
    method Check(buffers: seq<seq<Byte>>) returns (error: Option<StreamError>)
      ensures !active ==> error == Some(NotActive)
      ensures active ==> (error.None? <==>
        forall i :: 0 <= i < |buffers| ==> buffers[i] != [] && Parse(buffers[i], 0, Judging(directories)).Ok?)
      ensures active && error.Some? ==> exists i ::
        && 0 <= i < |buffers| && BufferError(buffers[i], Judging(directories)) == error
        && forall k :: 0 <= k < i ==> BufferError(buffers[k], Judging(directories)) == None
    {
      if !active { return Some(NotActive); }
      for i := 0 to |buffers|
        invariant forall k :: 0 <= k < i ==> buffers[k] != [] && Parse(buffers[k], 0, Judging(directories)).Ok?
        invariant forall k :: 0 <= k < i ==> BufferError(buffers[k], Judging(directories)) == None
      {
        if buffers[i] == [] { return Some(StreamLost); }
        error := CheckBuffer(buffers[i]);
        if error.Some? { return; }
      }
      error := None;
    }
  }
}
