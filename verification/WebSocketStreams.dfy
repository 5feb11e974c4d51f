/** Reading text messages from a stream of WebSocket frames, answering pings on the way. */
module WebSocketStreams {
  import opened Prelude
  import opened WebSocketFrames

  predicate Within(b: Byte, low: Byte, high: Byte) {
    low <= b <= high
  }

  /** Well-formed UTF-8: no overlong form, no surrogate, nothing above U+10FFFF. */
  predicate ValidUtf8(s: seq<Byte>) {
    if s == [] then true
    else if s[0] < 0x80 then ValidUtf8(s[1..])
    else if Within(s[0], 0xC2, 0xDF) then |s| >= 2 && Within(s[1], 0x80, 0xBF) && ValidUtf8(s[2..])
    else if Within(s[0], 0xE0, 0xEF) then
      && |s| >= 3
      && Within(s[1], if s[0] == 0xE0 then 0xA0 else 0x80, if s[0] == 0xED then 0x9F else 0xBF)
      && Within(s[2], 0x80, 0xBF)
      && ValidUtf8(s[3..])
    else if Within(s[0], 0xF0, 0xF4) then
      && |s| >= 4
      && Within(s[1], if s[0] == 0xF0 then 0x90 else 0x80, if s[0] == 0xF4 then 0x8F else 0xBF)
      && Within(s[2], 0x80, 0xBF) && Within(s[3], 0x80, 0xBF)
      && ValidUtf8(s[4..])
    else false
  }

  /** A Unicode scalar value: any code point but a surrogate. */
  type Scalar = c: int | 0 <= c <= 0x10_FFFF && !(0xD800 <= c <= 0xDFFF)

  /** Its encoding, section 3 of RFC 3629. */
  function Utf8Of(c: Scalar): seq<Byte> {
    if c < 0x80 then [c]
    else if c < 0x800 then [0xC0 + c / 0x40, 0x80 + c % 0x40]
    else if c < 0x1_0000 then [0xE0 + c / 0x1000, 0x80 + c / 0x40 % 0x40, 0x80 + c % 0x40]
    else [0xF0 + c / 0x4_0000, 0x80 + c / 0x1000 % 0x40, 0x80 + c / 0x40 % 0x40, 0x80 + c % 0x40]
  }

  function Utf8(cs: seq<Scalar>): seq<Byte> {
    if cs == [] then [] else Utf8Of(cs[0]) + Utf8(cs[1..])
  }

  /** The bytes of an encoding are where the test expects them. */
  lemma BytesOfScalar(c: Scalar)
    ensures var s := Utf8Of(c);
            && (c < 0x80 ==> s == [c])
            && (0x80 <= c < 0x800 ==> |s| == 2 && 0xC2 <= s[0] <= 0xDF && 0x80 <= s[1] <= 0xBF)
            && (0x800 <= c < 0x1_0000 ==>
                  && |s| == 3 && 0xE0 <= s[0] <= 0xEF && 0x80 <= s[1] <= 0xBF && 0x80 <= s[2] <= 0xBF
                  && (s[0] == 0xE0 ==> s[1] >= 0xA0) && (s[0] == 0xED ==> s[1] <= 0x9F))
            && (0x1_0000 <= c ==>
                  && |s| == 4 && 0xF0 <= s[0] <= 0xF4
                  && 0x80 <= s[1] <= 0xBF && 0x80 <= s[2] <= 0xBF && 0x80 <= s[3] <= 0xBF
                  && (s[0] == 0xF0 ==> s[1] >= 0x90) && (s[0] == 0xF4 ==> s[1] <= 0x8F))
  {
  }

  lemma ValidAfterScalar(c: Scalar, rest: seq<Byte>)
    ensures ValidUtf8(Utf8Of(c) + rest) == ValidUtf8(rest)
  {
    hide Utf8Of;
    BytesOfScalar(c);
    var one := Utf8Of(c);
    assert (one + rest)[|one|..] == rest;
  }

  /** Digits to the base 64. */
  lemma Digits(a: nat, b: nat, e: nat, f: nat)
    requires b < 0x40 && e < 0x40 && f < 0x40
    ensures (a * 0x40 + f) / 0x40 == a && (a * 0x40 + f) % 0x40 == f
    ensures var c := a * 0x1000 + e * 0x40 + f;
            c / 0x1000 == a && c / 0x40 % 0x40 == e && c % 0x40 == f
    ensures var c := a * 0x4_0000 + b * 0x1000 + e * 0x40 + f;
            c / 0x4_0000 == a && c / 0x1000 % 0x40 == b && c / 0x40 % 0x40 == e && c % 0x40 == f
  {
    LowDigit(a, f);
    var three, four := a * 0x1000 + e * 0x40 + f, a * 0x4_0000 + b * 0x1000 + e * 0x40 + f;
    assert three == (a * 0x40 + e) * 0x40 + f && four == ((a * 0x40 + b) * 0x40 + e) * 0x40 + f;
    LowDigit(a * 0x40 + e, f);
    LowDigit(a, e);
    LowDigit((a * 0x40 + b) * 0x40 + e, f);
    LowDigit(a * 0x40 + b, e);
    LowDigit(a, b);
    HigherDigits(three);
    HigherDigits(four);
  }

  lemma LowDigit(q: nat, r: nat)
    requires r < 0x40
    ensures (q * 0x40 + r) / 0x40 == q && (q * 0x40 + r) % 0x40 == r
  {
  }

  lemma HigherDigits(c: nat)
    ensures c / 0x1000 == c / 0x40 / 0x40 && c / 0x4_0000 == c / 0x40 / 0x40 / 0x40
  {
  }

  lemma TwoBytes(s: seq<Byte>) returns (c: Scalar)
    requires |s| >= 2 && Within(s[0], 0xC2, 0xDF) && Within(s[1], 0x80, 0xBF)
    ensures Utf8Of(c) == s[..2]
  {
    var a: int, b: int := s[0], s[1];
    Digits(a - 0xC0, 0, 0, b - 0x80);
    c := (a - 0xC0) * 0x40 + (b - 0x80);
  }

  lemma ThreeBytes(s: seq<Byte>) returns (c: Scalar)
    requires |s| >= 3 && Within(s[0], 0xE0, 0xEF) && Within(s[1], 0x80, 0xBF) && Within(s[2], 0x80, 0xBF)
    requires (s[0] == 0xE0 ==> s[1] >= 0xA0) && (s[0] == 0xED ==> s[1] <= 0x9F)
    ensures Utf8Of(c) == s[..3]
  {
    var a: int, b: int, e: int := s[0], s[1], s[2];
    Digits(a - 0xE0, 0, b - 0x80, e - 0x80);
    c := (a - 0xE0) * 0x1000 + (b - 0x80) * 0x40 + (e - 0x80);
  }

  lemma FourBytes(s: seq<Byte>) returns (c: Scalar)
    requires |s| >= 4 && Within(s[0], 0xF0, 0xF4)
    requires Within(s[1], 0x80, 0xBF) && Within(s[2], 0x80, 0xBF) && Within(s[3], 0x80, 0xBF)
    requires (s[0] == 0xF0 ==> s[1] >= 0x90) && (s[0] == 0xF4 ==> s[1] <= 0x8F)
    ensures Utf8Of(c) == s[..4]
  {
    var a: int, b: int, e: int, f: int := s[0], s[1], s[2], s[3];
    Digits(a - 0xF0, b - 0x80, e - 0x80, f - 0x80);
    c := (a - 0xF0) * 0x4_0000 + (b - 0x80) * 0x1000 + (e - 0x80) * 0x40 + (f - 0x80);
  }

  lemma FirstScalar(s: seq<Byte>) returns (c: Scalar, rest: seq<Byte>)
    requires s != [] && ValidUtf8(s)
    ensures s == Utf8Of(c) + rest && ValidUtf8(rest)
  {
    hide Utf8Of;
    if s[0] < 0x80 {
      c, rest := s[0], s[1..];
      OneByte(c);
    } else if s[0] <= 0xDF {
      c := TwoBytes(s);
      rest := s[2..];
    } else if s[0] <= 0xEF {
      c := ThreeBytes(s);
      rest := s[3..];
    } else {
      c := FourBytes(s);
      rest := s[4..];
    }
  }

  lemma OneByte(c: Scalar)
    requires c < 0x80
    ensures Utf8Of(c) == [c]
  {
  }

  /** The bytes that pass are exactly the encodings of sequences of scalar values. */
  lemma {:induction false} ValidUtf8Iff(s: seq<Byte>)
    ensures ValidUtf8(s) <==> exists cs :: Utf8(cs) == s
    decreases |s|
  {
    if ValidUtf8(s) {
      if s == [] {
        assert Utf8([]) == s;
      } else {
        var c, rest := FirstScalar(s);
        hide ValidUtf8, Utf8Of;
        ShorterRest(c, rest);
        ValidUtf8Iff(rest);
        var cs :| Utf8(cs) == rest;
        assert ([c] + cs)[1..] == cs && Utf8([c] + cs) == s;
      }
    }
    if cs :| Utf8(cs) == s {
      EncodingIsValid(cs);
    }
  }

  lemma ShorterRest(c: Scalar, rest: seq<Byte>)
    ensures |Utf8Of(c) + rest| > |rest|
  {
  }

  lemma {:induction false} EncodingIsValid(cs: seq<Scalar>)
    ensures ValidUtf8(Utf8(cs))
  {
    hide Utf8Of;
    if cs != [] {
      EncodingIsValid(cs[1..]);
      ValidAfterScalar(cs[0], Utf8(cs[1..]));
    } else {
      assert Utf8(cs) == [];
    }
  }

  datatype Reading = Reading(result: Result<seq<Byte>, WireError>, rest: seq<Byte>, replies: seq<Byte>)

  /** What reading one message returns, leaves unread and writes; a read cut short leaves nothing. */
  function ReadText(input: seq<Byte>): Reading
    decreases |input|
  {
    match Parse(input)
    case Err(e) => Reading(Err(e), [], [])
    case Ok(f) =>
      if f.opcode == 0x1 then Reading(if ValidUtf8(f.payload) then Ok(f.payload) else Err(NotText), f.rest, [])
      else if f.opcode == 0x8 then Reading(Err(Closed), f.rest, [])
      else if f.opcode == 0x9 then
        match ControlFrame(0xA, f.payload)
        case Err(e) => Reading(Err(e), f.rest, [])
        case Ok(reply) => var next := ReadText(f.rest); next.(replies := reply + next.replies)
      else if f.opcode == 0xA then ReadText(f.rest)
      else Reading(Err(UnsupportedOpcode(f.opcode)), f.rest, [])
  }

  /** The two directions of the socket: bytes not yet read, and bytes written. */
  class Connection {
    var incoming: seq<Byte>
    var outgoing: seq<Byte>

    method ReadExact(n: nat) returns (bytes: Result<seq<Byte>, WireError>)
      modifies this`incoming
      ensures match Take(old(incoming), n)
              case Ok(t) => bytes == Ok(t.0) && incoming == t.1
              case Err(e) => bytes == Err(e) && incoming == []
    {
      if |incoming| < n {
        incoming := [];
        return Err(ShortRead);
      }
      bytes := Ok(incoming[..n]);
      incoming := incoming[n..];
    }

    method ReadLength(low: Byte) returns (size: Result<nat, WireError>)
      modifies this`incoming
      ensures match ParseLength(low, old(incoming))
              case Ok(r) => size == Ok(r.0) && incoming == r.1
              case Err(e) => size == Err(e) && incoming == []
    {
      if low == 126 {
        var bytes :- ReadExact(2);
        return Ok(FromBigEndian(bytes));
      } else if low == 127 {
        var bytes :- ReadExact(8);
        return Ok(FromBigEndian(bytes));
      }
      return Ok(low);
    }

    method ReadMask(masked: bool) returns (mask: Result<Option<Mask>, WireError>)
      modifies this`incoming
      ensures match ParseMask(masked, old(incoming))
              case Ok(r) => mask == Ok(r.0) && incoming == r.1
              case Err(e) => mask == Err(e) && incoming == []
    {
      if !masked {
        return Ok(None);
      }
      var bytes :- ReadExact(4);
      return Ok(Some(Mask(bytes[0], bytes[1], bytes[2], bytes[3])));
    }

    method ReadBody(low: Byte, masked: bool) returns (payload: Result<seq<Byte>, WireError>)
      modifies this`incoming
      ensures match ParseBody(low, masked, old(incoming))
              case Ok(r) => payload == Ok(r.0) && incoming == r.1
              case Err(e) => payload == Err(e) && incoming == []
    {
      hide ParseLength, ParseMask, Masked;
      var size :- ReadLength(low);
      var mask :- ReadMask(masked);
      var bytes :- ReadExact(size);
      if mask.None? {
        return Ok(bytes);
      }
      var clear := AppendMasked([], bytes, mask.value);
      assert clear == Masked(bytes, mask.value);
      return Ok(clear);
    }

    method ReadFrame() returns (f: Result<(Byte, seq<Byte>), WireError>)
      modifies this`incoming
      ensures match Parse(old(incoming))
              case Ok(r) => f == Ok((r.opcode, r.payload)) && incoming == r.rest
              case Err(e) => f == Err(e) && incoming == []
    {
      hide ParseBody, Opcode, LengthBits, HasMask;
      var header :- ReadExact(2);
      var payload :- ReadBody(LengthBits(header[1]), HasMask(header[1]));
      return Ok((Opcode(header[0]), payload));
    }

    method ReadTextFrame() returns (message: Result<seq<Byte>, WireError>)
      modifies this
      ensures var r := ReadText(old(incoming));
              message == r.result && incoming == r.rest && outgoing == old(outgoing) + r.replies
    {
      ghost var start, sent := incoming, outgoing;
      ghost var replies: seq<Byte> := [];
      assert sent + replies == sent;
      while true
        invariant outgoing == sent + replies
        invariant ReadText(start) == ReadText(incoming).(replies := replies + ReadText(incoming).replies)
        decreases |incoming|
      {
        ghost var before := incoming;
        var frame := ReadFrame();
        if frame.Err? {
          return Err(frame.error);
        }
        var (opcode, payload) := frame.value;
        if opcode == 0x1 {
          return if ValidUtf8(payload) then Ok(payload) else Err(NotText);
        } else if opcode == 0x8 {
          return Err(Closed);
        } else if opcode == 0x9 {
          var reply := WriteControlFrame(0xA, payload);
          if reply.Err? {
            return Err(reply.error);
          }
          outgoing := outgoing + reply.value;
          Regroup(sent, replies, reply.value, ReadText(incoming).replies);
          replies := replies + reply.value;
        } else if opcode != 0xA {
          return Err(UnsupportedOpcode(opcode));
        }
      }
    }
  }

  lemma Regroup(a: seq<Byte>, b: seq<Byte>, c: seq<Byte>, d: seq<Byte>)
    ensures a + b + c == a + (b + c) && b + (c + d) == b + c + d
  {
  }

  // Whole streams.

  datatype Event =
    | Text(payload: seq<Byte>, mask: Option<Mask>)
    | Ping(payload: seq<Byte>, mask: Option<Mask>)
    | Pong(payload: seq<Byte>, mask: Option<Mask>)

  /** Events the reader takes: text is UTF-8, and the payload of a ping fits in the answer. */
  predicate Sendable(e: Event) {
    && |e.payload| < 0x1_0000_0000_0000_0000
    && (e.Text? ==> ValidUtf8(e.payload))
    && (e.Ping? ==> |e.payload| <= 125)
  }

  function FirstByte(e: Event): Byte {
    match e case Text(_, _) => 0x81 case Ping(_, _) => 0x89 case Pong(_, _) => 0x8A
  }

  function Stream(events: seq<Event>): seq<Byte>
    requires forall i :: 0 <= i < |events| ==> Sendable(events[i])
  {
    if events == [] then []
    else
      var e := events[0];
      assert Sendable(e);
      Frame(FirstByte(e), e.payload, e.mask) + Stream(events[1..])
  }

  function Texts(events: seq<Event>): seq<seq<Byte>> {
    if events == [] then [] else (if events[0].Text? then [events[0].payload] else []) + Texts(events[1..])
  }

  /** For each ping a masked pong with the same payload. */
  function Answers(events: seq<Event>): seq<Byte>
    requires forall i :: 0 <= i < |events| ==> Sendable(events[i])
  {
    if events == [] then []
    else if events[0].Ping? then
      assert Sendable(events[0]); Frame(0x8A, events[0].payload, Some(CONTROL_MASK)) + Answers(events[1..])
    else Answers(events[1..])
  }

  datatype Batch = Batch(messages: Result<seq<seq<Byte>>, WireError>, rest: seq<Byte>, replies: seq<Byte>)

  /** Reading `n` messages one after another. */
  function ReadMany(input: seq<Byte>, n: nat): Batch
    decreases n
  {
    if n == 0 then Batch(Ok([]), input, [])
    else
      var first := ReadText(input);
      if first.result.Err? then Batch(Err(first.result.error), first.rest, first.replies)
      else
        var others := ReadMany(first.rest, n - 1);
        Batch(if others.messages.Ok? then Ok([first.result.value] + others.messages.value) else others.messages,
              others.rest, first.replies + others.replies)
  }

  lemma OpcodeOf(e: Event)
    ensures Opcode(FirstByte(e)) == match e case Text(_, _) => 0x1 case Ping(_, _) => 0x9 case Pong(_, _) => 0xA
  {
  }

  lemma ReadOne(e: Event, tail: seq<Byte>)
    requires Sendable(e)
    ensures var r := ReadText(Frame(FirstByte(e), e.payload, e.mask) + tail);
            && (e.Text? ==> r == Reading(Ok(e.payload), tail, []))
            && (e.Ping? ==>
               r == ReadText(tail).(replies := Frame(0x8A, e.payload, Some(CONTROL_MASK)) + ReadText(tail).replies))
            && (e.Pong? ==> r == ReadText(tail))
  {
    hide Frame, Parse;
    OpcodeOf(e);
    FrameRoundTrip(FirstByte(e), e.payload, e.mask, tail);
  }

  /** Any other text is refused, and so is a ping that is too long to be answered. */
  lemma RefusedEvent(e: Event)
    requires |e.payload| < 0x1_0000_0000_0000_0000
    ensures e.Text? ==> ReadText(Frame(FirstByte(e), e.payload, e.mask)).result ==
                        if Sendable(e) then Ok(e.payload) else Err(NotText)
    ensures e.Ping? ==> ReadText(Frame(FirstByte(e), e.payload, e.mask)).result ==
                        Err(if Sendable(e) then ShortRead else ControlTooLarge)
  {
    hide Frame, Parse;
    OpcodeOf(e);
    FrameRoundTrip(FirstByte(e), e.payload, e.mask, []);
    assert Frame(FirstByte(e), e.payload, e.mask) + [] == Frame(FirstByte(e), e.payload, e.mask);
    NothingToRead();
  }

  lemma NothingToRead()
    ensures ReadText([]).result == Err(ShortRead)
  {
  }

  lemma PrefixedRead(input: seq<Byte>, tail: seq<Byte>, reply: seq<Byte>, n: nat)
    requires n > 0 && ReadText(input) == ReadText(tail).(replies := reply + ReadText(tail).replies)
    ensures ReadMany(input, n) == ReadMany(tail, n).(replies := reply + ReadMany(tail, n).replies)
  {
    hide ReadText;
    var first := ReadText(tail);
    if first.result.Ok? {
      Regroup(reply, first.replies, ReadMany(first.rest, n - 1).replies, []);
      assert reply + first.replies + ReadMany(first.rest, n - 1).replies == reply +
        (first.replies + ReadMany(first.rest, n - 1).replies);
    }
  }

  /**
   * Any sequence of frames that ends with a text: reading as many messages as there are texts gives
   * the texts in order, answers every ping, and leaves unread exactly what follows.
   */
  lemma {:induction false} StreamRoundTrip(events: seq<Event>, rest: seq<Byte>)
    requires forall i :: 0 <= i < |events| ==> Sendable(events[i])
    requires events == [] || events[|events| - 1].Text?
    ensures ReadMany(Stream(events) + rest, |Texts(events)|) == Batch(Ok(Texts(events)), rest, Answers(events))
    decreases events
  {
    if events == [] {
      assert [] + rest == rest;
    } else {
      var e, tail := events[0], events[1..];
      var frame := Frame(FirstByte(e), e.payload, e.mask);
      assert events == [e] + tail && Stream(events) == frame + Stream(tail);
      hide *;
      StreamRoundTrip(tail, rest);
      ReadOne(e, Stream(tail) + rest);
      Associates(frame, Stream(tail), rest);
      Step(e, frame + (Stream(tail) + rest), Stream(tail) + rest, tail, rest);
    }
  }

  lemma Associates(a: seq<Byte>, b: seq<Byte>, c: seq<Byte>)
    ensures a + b + c == a + (b + c)
  {
  }

  lemma Step(e: Event, input: seq<Byte>, next: seq<Byte>, tail: seq<Event>, rest: seq<Byte>)
    requires Sendable(e) && (forall i :: 0 <= i < |tail| ==> Sendable(tail[i]))
    requires e.Text? || (tail != [] && tail[|tail| - 1].Text?)
    requires e.Text? ==> ReadText(input) == Reading(Ok(e.payload), next, [])
    requires e.Ping? ==>
             ReadText(input) == ReadText(next).(replies := Frame(0x8A, e.payload, Some(CONTROL_MASK)) +
             ReadText(next).replies)
    requires e.Pong? ==> ReadText(input) == ReadText(next)
    requires ReadMany(next, |Texts(tail)|) == Batch(Ok(Texts(tail)), rest, Answers(tail))
    ensures var events := [e] + tail;
            ReadMany(input, |Texts(events)|) == Batch(Ok(Texts(events)), rest, Answers(events))
  {
    hide ReadText, Frame;
    assert ([e] + tail)[1..] == tail;
    if e.Text? {
      assert [] + Answers(tail) == Answers(tail);
    } else {
      TailHasText(tail);
      assert Texts([e] + tail) == Texts(tail);
      if e.Ping? {
        PrefixedRead(input, next, Frame(0x8A, e.payload, Some(CONTROL_MASK)), |Texts(tail)|);
      } else {
        SameRead(input, next, |Texts(tail)|);
      }
    }
  }

  lemma SameRead(input: seq<Byte>, tail: seq<Byte>, n: nat)
    requires n > 0 && ReadText(input) == ReadText(tail)
    ensures ReadMany(input, n) == ReadMany(tail, n)
  {
  }

  lemma {:induction false} TailHasText(events: seq<Event>)
    requires events != [] && events[|events| - 1].Text?
    ensures |Texts(events)| > 0
  {
    if |events| > 1 {
      TailHasText(events[1..]);
    }
  }
}
