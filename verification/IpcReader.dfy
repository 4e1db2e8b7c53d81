/**
  The GUI's incremental IPC reader. Chunks of a byte stream are appended to a buffer from
  which complete frames are consumed. The reference reads a whole stream at once; the reader
  agrees with it on every stream and every way to cut it into chunks.
*/
module IpcReader {
  import opened Bytes
  import opened Framing

  const MAX_STRING := 1024 * 1024

  const LOG_LINE: seq<byte> := [0x49, 0x4C, 0x4F, 0x47]  // ILOG
  const APPLIED: seq<byte> := [0x49, 0x41, 0x43, 0x4B]  // IACK
  const STATE: seq<byte> := [0x49, 0x53, 0x54, 0x53]  // ISTS

  datatype Problem = BadNonce | LogTooLong | NameTooLong | DetailTooLong | BadState | UnknownType

  datatype Event =
    | CommandApplied(nonce: seq<byte>)
    | LogLine(line: seq<byte>)
    | ConnectionState(state: byte, role: byte, presence: byte, name: seq<byte>, detail: seq<byte>)
    | ProtocolError(problem: Problem)

  datatype Field = Complete(value: seq<byte>, next: nat) | Incomplete | Malformed

  /** `readStringField` */
  function ReadField(buffer: seq<byte>, offset: nat): (f: Field)
    requires offset <= |buffer|
    ensures f.Complete? ==> offset + 4 <= f.next <= |buffer| && f.value == buffer[offset + 4..f.next]
    ensures f.Incomplete? ==> |buffer| < offset + 4 + MAX_STRING
  {
    if |buffer| - offset < 4 then Incomplete
    else
      var length := FromBigEndian(buffer[offset..offset + 4]);
      if length > MAX_STRING then Malformed
      else if |buffer| - offset - 4 < length then Incomplete
      else Complete(buffer[offset + 4..offset + 4 + length], offset + 4 + length)
  }

  predicate ValidState(state: byte, role: byte, presence: byte, name: seq<byte>) {
    state <= 2 && role <= 1 && presence <= 1 && (presence == 1 <==> name == [])
  }

  function StateFrame(buffer: seq<byte>): (f: Frame<Event>)
    requires |buffer| >= 4
    ensures f.Whole? ==> 4 < f.length <= |buffer|
    ensures f.Partial? ==> |buffer| < 2 * MAX_STRING + 15
  {
    if |buffer| < 7 then Partial
    else
      match ReadField(buffer, 7)
      case Incomplete => Partial
      case Malformed => Violation(ProtocolError(NameTooLong))
      case Complete(name, next) =>
        match ReadField(buffer, next)
        case Incomplete => Partial
        case Malformed => Violation(ProtocolError(DetailTooLong))
        case Complete(detail, end) =>
          if ValidState(buffer[4], buffer[5], buffer[6], name)
          then Whole(ConnectionState(buffer[4], buffer[5], buffer[6], name, detail), end)
          else Violation(ProtocolError(BadState))
  }

  function Front(buffer: seq<byte>): (f: Frame<Event>)
    ensures f.Whole? ==> 4 < f.length <= |buffer| && !f.event.ProtocolError?
    ensures f.Partial? ==> |buffer| < 2 * MAX_STRING + 15
  {
    if |buffer| < 4 then Partial
    else if buffer[..4] == APPLIED then
      match ReadField(buffer, 4)
      case Incomplete => Partial
      case Malformed => Violation(ProtocolError(BadNonce))
      case Complete(nonce, next) =>
        if |nonce| == 16 then Whole(CommandApplied(nonce), next) else Violation(ProtocolError(BadNonce))
    else if buffer[..4] == LOG_LINE then
      match ReadField(buffer, 4)
      case Incomplete => Partial
      case Malformed => Violation(ProtocolError(LogTooLong))
      case Complete(line, next) => Whole(LogLine(line), next)
    else if buffer[..4] == STATE then StateFrame(buffer)
    else Violation(ProtocolError(UnknownType))
  }

  class Reader {
    var buffer: seq<byte>

    constructor ()
      ensures buffer == []
    {
      buffer := [];
    }

    /** `appendData` and `parseAvailable`: the events emitted for this chunk, the last of which
        may be a protocol error that empties the buffer. */
    method AppendData(data: seq<byte>) returns (events: seq<Event>, failed: bool)
      modifies this
      ensures Lawful(Front)
      ensures Parse(Front, old(buffer) + data) == Parsed(events, buffer, failed)
      ensures |buffer| < 2 * MAX_STRING + 15
    {
      FrontIsLawful();
      buffer := buffer + data;
      events, failed := [], false;
      ghost var stream := buffer;
      assert Resume([], Parse(Front, stream)) == Parse(Front, stream);
      while |buffer| >= 4
        invariant !failed && Parse(Front, stream) == Resume(events, Parse(Front, buffer))
        decreases |buffer|
      {
        ResumeStep(Front, events, buffer);
        var frame := Front(buffer);
        match frame
        case Partial =>
          return;
        case Violation(problem) =>
          buffer, events, failed := [], events + [problem], true;
          return;
        case Whole(event, length) =>
          buffer, events := buffer[length..], events + [event];
      }
      ResumeStep(Front, events, buffer);
    }
  }

  lemma FieldStable(buffer: seq<byte>, more: seq<byte>, offset: nat)
    requires offset <= |buffer| && !ReadField(buffer, offset).Incomplete?
    ensures ReadField(buffer + more, offset) == ReadField(buffer, offset)
  {
    assert (buffer + more)[offset..offset + 4] == buffer[offset..offset + 4];
    var f := ReadField(buffer, offset);
    if f.Complete? {
      assert (buffer + more)[offset + 4..f.next] == buffer[offset + 4..f.next];
    }
  }

  /** Bytes that arrive later never change a frame or a violation already seen. */
  lemma FrontStable(buffer: seq<byte>, more: seq<byte>)
    requires !Front(buffer).Partial?
    ensures Front(buffer + more) == Front(buffer)
  {
    assert (buffer + more)[..4] == buffer[..4];
    if buffer[..4] == STATE {
      FieldStable(buffer, more, 7);
      var name := ReadField(buffer, 7);
      if name.Complete? {
        FieldStable(buffer, more, name.next);
      }
    } else if buffer[..4] == APPLIED || buffer[..4] == LOG_LINE {
      FieldStable(buffer, more, 4);
    }
  }

  lemma FrontIsLawful()
    ensures Lawful(Front)
  {
    forall b: seq<byte>, more: seq<byte>
      ensures Keeps(Front, b, more)
    {
      if !Front(b).Partial? {
        FrontStable(b, more);
      }
    }
  }

  /** The declared wire formats: "ILOG%s", "IACK%s" and "ISTS%1i%1i%1i%s%s". */
  function EncodeField(value: seq<byte>): seq<byte>
    requires |value| <= MAX_STRING
  {
    ToBigEndian(|value|) + value
  }

  predicate WellFormed(event: Event) {
    match event
    case CommandApplied(nonce) => |nonce| == 16
    case LogLine(line) => |line| <= MAX_STRING
    case ConnectionState(state, role, presence, name, detail) =>
      ValidState(state, role, presence, name) && |name| <= MAX_STRING && |detail| <= MAX_STRING
    case ProtocolError(_) => false
  }

  function Encode(event: Event): seq<byte>
    requires WellFormed(event)
  {
    match event
    case CommandApplied(nonce) => APPLIED + EncodeField(nonce)
    case LogLine(line) => LOG_LINE + EncodeField(line)
    case ConnectionState(state, role, presence, name, detail) =>
      STATE + [state, role, presence] + EncodeField(name) + EncodeField(detail)
  }

  lemma FieldRoundTrip(before: seq<byte>, value: seq<byte>, after: seq<byte>)
    requires |value| <= MAX_STRING
    ensures ReadField(before + EncodeField(value) + after, |before|)
            == Complete(value, |before| + 4 + |value|)
  {
    var buffer, length := before + EncodeField(value) + after, ToBigEndian(|value|);
    assert buffer == before + length + (value + after);
    Middle(before, length, value + after);
    assert buffer == (before + length) + value + after;
    Middle(before + length, value, after);
  }

  lemma StringFrameRoundTrip(code: seq<byte>, value: seq<byte>, after: seq<byte>)
    requires |code| == 4 && |value| <= MAX_STRING
    ensures var buffer := code + EncodeField(value) + after;
            buffer[..4] == code && ReadField(buffer, 4) == Complete(value, |code + EncodeField(value)|)
  {
    FieldRoundTrip(code, value, after);
  }

  lemma StateFrameRoundTrip(event: Event, after: seq<byte>)
    requires WellFormed(event) && event.ConnectionState?
    ensures StateFrame(Encode(event) + after) == Whole(event, |Encode(event)|) && (Encode(event) + after)[..4] == STATE
  {
    var head := STATE + [event.state, event.role, event.presence];
    var name, detail := EncodeField(event.name), EncodeField(event.detail);
    var buffer := Encode(event) + after;
    assert buffer == head + name + (detail + after);
    FieldRoundTrip(head, event.name, detail + after);
    assert buffer == (head + name) + detail + after;
    FieldRoundTrip(head + name, event.detail, after);
    assert buffer[..7] == head;
  }

  lemma FrameRoundTrip(event: Event, after: seq<byte>)
    requires WellFormed(event)
    ensures Front(Encode(event) + after) == Whole(event, |Encode(event)|)
  {
    match event
    case CommandApplied(nonce) => StringFrameRoundTrip(APPLIED, nonce, after);
    case LogLine(line) => StringFrameRoundTrip(LOG_LINE, line, after);
    case ConnectionState(_, _, _, _, _) => StateFrameRoundTrip(event, after);
  }

  /** The length that a field announces. */
  function Announced(buffer: seq<byte>, offset: nat): nat
    requires offset + 4 <= |buffer|
  {
    FromBigEndian(buffer[offset..offset + 4])
  }

  lemma FieldIs(buffer: seq<byte>, offset: nat)
    requires offset <= |buffer|
    ensures var f := ReadField(buffer, offset);
      && (f.Incomplete? <==> |buffer| < offset + 4
                             || (Announced(buffer, offset) <= 1_048_576
                                 && |buffer| < offset + 4 + Announced(buffer, offset)))
      && (f.Malformed? <==> offset + 4 <= |buffer| && Announced(buffer, offset) > 1_048_576)
      && (f.Complete? ==> |f.value| == Announced(buffer, offset) && f.next == offset + 4 + |f.value|
                          && buffer[offset..f.next] == EncodeField(f.value))
  {
    var f := ReadField(buffer, offset);
    if f.Complete? {
      BigEndianUnique(buffer[offset..offset + 4], ToBigEndian(|f.value|));
      assert buffer[offset..f.next] == buffer[offset..offset + 4] + f.value;
    }
  }

  /** Whatever is read as a message is the encoding of that message. */
  lemma FrameIsEncoding(buffer: seq<byte>)
    requires Front(buffer).Whole?
    ensures var f := Front(buffer); WellFormed(f.event) && buffer[..f.length] == Encode(f.event)
  {
    if buffer[..4] == STATE {
      FieldIs(buffer, 7);
      var name := ReadField(buffer, 7);
      FieldIs(buffer, name.next);
      var detail := ReadField(buffer, name.next);
      assert buffer[..detail.next] ==
             buffer[..4] + [buffer[4], buffer[5], buffer[6]] + buffer[7..name.next] + buffer[name.next..detail.next];
    } else {
      FieldIs(buffer, 4);
      assert buffer[..ReadField(buffer, 4).next] == buffer[..4] + buffer[4..ReadField(buffer, 4).next];
    }
  }

  /** Which violation is reported, and when: as soon as a type is unknown or a length is over the
      limit, and for a nonce or a state once it is complete. */
  lemma RejectedFor(buffer: seq<byte>, problem: Problem)
    requires Front(buffer) == Violation(ProtocolError(problem))
    ensures |buffer| >= 4
    ensures problem.UnknownType? <==> buffer[..4] != APPLIED && buffer[..4] != LOG_LINE && buffer[..4] != STATE
    ensures problem.BadNonce? <==> buffer[..4] == APPLIED
    ensures problem.BadNonce? ==> |buffer| >= 8 && Announced(buffer, 4) != 16
    ensures problem.LogTooLong? <==> buffer[..4] == LOG_LINE
    ensures problem.LogTooLong? ==> |buffer| >= 8 && Announced(buffer, 4) > 1_048_576
    ensures problem.NameTooLong? <==>
      buffer[..4] == STATE && |buffer| >= 11 && Announced(buffer, 7) > 1_048_576
    ensures problem.DetailTooLong? ==>
      var next := 11 + Announced(buffer, 7);
      buffer[..4] == STATE && |buffer| >= next + 4 && Announced(buffer, next) > 1_048_576
    ensures problem.BadState? ==>
      && buffer[..4] == STATE
      && (buffer[4] > 2 || buffer[5] > 1 || buffer[6] > 1 || (buffer[6] == 1) != (Announced(buffer, 7) == 0))
  {
    if buffer[..4] == STATE {
      FieldIs(buffer, 7);
      if ReadField(buffer, 7).Complete? {
        FieldIs(buffer, ReadField(buffer, 7).next);
      }
    } else if buffer[..4] == APPLIED || buffer[..4] == LOG_LINE {
      FieldIs(buffer, 4);
    }
  }

  /** The reader waits only for a type, or inside a message of a known type with a field that is
      not complete yet. */
  lemma WaitsFor(buffer: seq<byte>)
    requires Front(buffer).Partial? && |buffer| >= 4
    ensures buffer[..4] == APPLIED || buffer[..4] == LOG_LINE || buffer[..4] == STATE
    ensures buffer[..4] != STATE ==> |buffer| < 8 || |buffer| < 8 + Announced(buffer, 4)
    ensures buffer[..4] == STATE ==>
      || |buffer| < 11 || |buffer| < 15 + Announced(buffer, 7)
      || |buffer| < 15 + Announced(buffer, 7) + Announced(buffer, 11 + Announced(buffer, 7))
  {
    if buffer[..4] == STATE {
      if |buffer| >= 7 {
        FieldIs(buffer, 7);
        if ReadField(buffer, 7).Complete? {
          FieldIs(buffer, ReadField(buffer, 7).next);
        }
      }
    } else {
      FieldIs(buffer, 4);
    }
  }

  ghost function Frames(events: seq<Event>): seq<(Event, seq<byte>)>
    requires forall e <- events :: WellFormed(e)
  {
    seq(|events|, i requires 0 <= i < |events| => (events[i], Encode(events[i])))
  }

  lemma {:induction false} EventsOfFrames(events: seq<Event>)
    requires forall e <- events :: WellFormed(e)
    ensures Events(Frames(events)) == events
  {
    if events != [] {
      EventsOfFrames(events[1..]);
      assert Frames(events)[1..] == Frames(events[1..]);
    }
  }

  /** Encoding any messages and feeding the bytes to a new reader in any chunks gives the messages back. */
  lemma StreamRoundTrip(events: seq<Event>, chunks: seq<seq<byte>>)
    requires forall e <- events :: WellFormed(e)
    requires Concat(chunks) == Stream(Frames(events))
    ensures Lawful(Front) && Feed(Front, [], chunks) == Parsed(events, [], false)
  {
    FrontIsLawful();
    forall f, after: seq<byte> | f in Frames(events)
      ensures Front(f.1 + after) == Whole(f.0, |f.1|)
    {
      FrameRoundTrip(f.0, after);
    }
    ParseFrames(Front, Frames(events));
    EventsOfFrames(events);
    assert [] + Concat(chunks) == Concat(chunks);
    ChunkingIsIrrelevant(Front, [], chunks);
  }
}
