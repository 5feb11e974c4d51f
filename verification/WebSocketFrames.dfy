/** WebSocket frames as bytes: base framing and masking, sections 5.2 and 5.3 of RFC 6455. */
module WebSocketFrames {
  import opened Prelude

  // Bytes are numbers below 256.  Testing and setting bits is written as arithmetic.

  type Byte = b: int | 0 <= b < 256

  function HighBitSet(b: Byte): Byte {
    if b < 128 then b + 128 else b
  }

  function Opcode(first: Byte): Byte { first % 16 }
  function LengthBits(second: Byte): Byte { second % 128 }
  predicate HasMask(second: Byte) { second >= 128 }

  /** Exclusive or of the low `k` bits. */
  function XorBits(a: nat, b: nat, k: nat): nat {
    if k == 0 then 0 else (a + b) % 2 + 2 * XorBits(a / 2, b / 2, k - 1)
  }

  function Power2(k: nat): nat {
    if k == 0 then 1 else 2 * Power2(k - 1)
  }

  lemma {:induction false} XorBound(a: nat, b: nat, k: nat)
    ensures XorBits(a, b, k) < Power2(k)
  {
    if k > 0 {
      XorBound(a / 2, b / 2, k - 1);
    }
  }

  lemma {:induction false} XorBitsTwice(a: nat, b: nat, k: nat)
    requires a < Power2(k)
    ensures XorBits(XorBits(a, b, k), b, k) == a
  {
    if k > 0 {
      XorBitsTwice(a / 2, b / 2, k - 1);
      LowBit(a, b, XorBits(a / 2, b / 2, k - 1));
    }
  }

  lemma LowBit(a: nat, b: nat, high: nat)
    ensures var x := (a + b) % 2 + 2 * high;
            x / 2 == high && (x + b) % 2 == a % 2
  {
    var p := (a + b) % 2;
    assert (p + 2 * high) / 2 == high;
    assert a + b == 2 * ((a + b) / 2) + p;
    assert p + 2 * high + b == a + 2 * (b + high - (a + b) / 2);
    EvenPart(a, b + high - (a + b) / 2);
  }

  lemma EvenPart(a: int, h: int)
    ensures (a + 2 * h) % 2 == a % 2
  {
  }

  lemma EightBits()
    ensures Power2(8) == 256
  {
    assert Power2(2) == 2 * Power2(1) == 4;
    assert Power2(4) == 2 * Power2(3) == 16;
    assert Power2(6) == 2 * Power2(5) == 64;
    assert Power2(8) == 2 * Power2(7) == 256;
  }

  function Xor(a: Byte, b: Byte): Byte {
    XorBound(a, b, 8);
    EightBits();
    XorBits(a, b, 8)
  }

  function Bit(n: nat, i: nat): nat {
    if i == 0 then n % 2 else Bit(n / 2, i - 1)
  }

  /** Bit for bit: set exactly where the two bytes differ. */
  lemma {:induction false} XorBitsAt(a: nat, b: nat, k: nat, i: nat)
    requires i < k
    ensures Bit(XorBits(a, b, k), i) == if Bit(a, i) != Bit(b, i) then 1 else 0
  {
    var all, high := XorBits(a, b, k), XorBits(a / 2, b / 2, k - 1);
    assert all == (a + b) % 2 + 2 * high;
    hide XorBits;
    assert all / 2 == high && all % 2 == (a + b) % 2;
    if i > 0 {
      XorBitsAt(a / 2, b / 2, k - 1, i - 1);
    }
  }

  lemma {:induction false} BitOfSum(n: nat, high: nat, k: nat, i: nat)
    requires n < Power2(k)
    ensures Bit(n + Power2(k) * high, i) == if i < k then Bit(n, i) else Bit(high, i - k)
  {
    if k > 0 {
      var p, q := Power2(k - 1), n / 2;
      assert Power2(k) == 2 * p;
      DoubledProduct(p, high);
      assert (n + 2 * (p * high)) / 2 == q + p * high && (n + 2 * (p * high)) % 2 == n % 2;
      if i > 0 {
        BitOfSum(q, high, k - 1, i - 1);
      }
    } else {
      assert n == 0 && Power2(0) * high == high;
    }
  }

  lemma DoubledProduct(p: nat, high: nat)
    ensures (2 * p) * high == 2 * (p * high)
  {
  }

  lemma {:induction false} HighBitsAreClear(n: nat, k: nat, i: nat)
    requires n < Power2(k) && i >= k
    ensures Bit(n, i) == 0
  {
    if k > 0 {
      HighBitsAreClear(n / 2, k - 1, i - 1);
    } else if i > 0 {
      HighBitsAreClear(n, 0, i - 1);
    }
  }

  lemma BitsAbove(low: nat, high: nat, k: nat, i: nat)
    requires low < Power2(k)
    ensures Bit(low + Power2(k) * high, i) == if i < k then Bit(low, i) else Bit(high, i - k)
    ensures i >= k ==> Bit(low, i) == 0
  {
    BitOfSum(low, high, k, i);
    if i >= k {
      HighBitsAreClear(low, k, i);
    }
  }

  /** The opcode is the low four bits, the length bits the low seven, and the mask flag the top one. */
  lemma HeaderBits(b: Byte, i: nat)
    requires i < 8
    ensures Bit(Opcode(b), i) == if i < 4 then Bit(b, i) else 0
    ensures Bit(LengthBits(b), i) == if i < 7 then Bit(b, i) else 0
    ensures HasMask(b) <==> Bit(b, 7) == 1
    ensures Bit(HighBitSet(b), i) == if i == 7 then 1 else Bit(b, i)
  {
    EightBits();
    assert Power2(4) == 16 && Power2(7) == 128 by {
      assert Power2(2) == 2 * Power2(1) == 4;
      assert Power2(4) == 2 * Power2(3) == 16;
      assert Power2(6) == 2 * Power2(5) == 64;
    }
    assert b == b % 16 + 16 * (b / 16) && b == b % 128 + 128 * (b / 128);
    BitsAbove(b % 16, b / 16, 4, i);
    BitsAbove(b % 128, b / 128, 7, i);
    BitsAbove(b % 128, b / 128, 7, 7);
    BitsAbove(b % 128, 1, 7, i);
    hide Power2;
    assert b / 128 == 0 || b / 128 == 1;
  }

  // Lengths in network byte order.

  function Power256(k: nat): nat {
    if k == 0 then 1 else 256 * Power256(k - 1)
  }

  function BigEndian(n: nat, width: nat): (r: seq<Byte>)
    ensures |r| == width
  {
    if width == 0 then [] else BigEndian(n / 256, width - 1) + [n % 256]
  }

  function FromBigEndian(bytes: seq<Byte>): nat {
    if bytes == [] then 0 else 256 * FromBigEndian(bytes[..|bytes| - 1]) + bytes[|bytes| - 1]
  }

  lemma {:induction false} BigEndianRoundTrip(n: nat, width: nat)
    requires n < Power256(width)
    ensures FromBigEndian(BigEndian(n, width)) == n
  {
    if width > 0 {
      BigEndianRoundTrip(n / 256, width - 1);
      var r := BigEndian(n, width);
      assert r[..|r| - 1] == BigEndian(n / 256, width - 1);
    }
  }

  lemma {:induction false} BigEndianBound(bytes: seq<Byte>)
    ensures FromBigEndian(bytes) < Power256(|bytes|)
  {
    if bytes != [] {
      BigEndianBound(bytes[..|bytes| - 1]);
    }
  }

  lemma Powers()
    ensures Power256(2) == 0x1_0000 && Power256(8) == 0x1_0000_0000_0000_0000
  {
    assert Power256(1) == 256 * Power256(0);
    assert Power256(2) == 256 * Power256(1);
    assert Power256(4) == 256 * Power256(3) == 256 * (256 * Power256(2));
    assert Power256(6) == 256 * Power256(5) == 256 * (256 * Power256(4));
    assert Power256(8) == 256 * Power256(7) == 256 * (256 * Power256(6));
  }

  // Masks.

  datatype Mask = Mask(b0: Byte, b1: Byte, b2: Byte, b3: Byte) {
    function At(i: nat): Byte {
      if i % 4 == 0 then b0 else if i % 4 == 1 then b1 else if i % 4 == 2 then b2 else b3
    }

    function Bytes(): seq<Byte> {
      [b0, b1, b2, b3]
    }
  }

  const TEXT_MASK := Mask(0x13, 0x37, 0x42, 0x99)
  const CONTROL_MASK := Mask(0x55, 0xAA, 0x11, 0xEE)

  function Masked(payload: seq<Byte>, mask: Mask): (r: seq<Byte>)
    ensures |r| == |payload| && forall i :: 0 <= i < |r| ==> r[i] == Xor(payload[i], mask.At(i))
  {
    seq(|payload|, i requires 0 <= i < |payload| => Xor(payload[i], mask.At(i)))
  }

  lemma XorTwice(a: Byte, m: Byte)
    ensures Xor(Xor(a, m), m) == a
  {
    EightBits();
    XorBitsTwice(a, m, 8);
  }

  lemma MaskedTwice(payload: seq<Byte>, mask: Mask)
    ensures Masked(Masked(payload, mask), mask) == payload
  {
    forall i | 0 <= i < |payload| ensures Masked(Masked(payload, mask), mask)[i] == payload[i] {
      XorTwice(payload[i], mask.At(i));
    }
  }

  // Frames.

  /** The second byte and the extended length. */
  function LengthField(n: nat, masked: bool): seq<Byte>
    requires n < 0x1_0000_0000_0000_0000
  {
    if n < 126 then [SecondByte(n, masked)]
    else if n <= 0xFFFF then [SecondByte(126, masked)] + BigEndian(n, 2)
    else [SecondByte(127, masked)] + BigEndian(n, 8)
  }

  function SecondByte(low: Byte, masked: bool): Byte {
    if masked then HighBitSet(low) else low
  }

  /** A frame with the given first byte, masked or not. */
  function Frame(first: Byte, payload: seq<Byte>, mask: Option<Mask>): seq<Byte>
    requires |payload| < 0x1_0000_0000_0000_0000
  {
    match mask
    case Some(m) => [first] + LengthField(|payload|, true) + m.Bytes() + Masked(payload, m)
    case None => [first] + LengthField(|payload|, false) + payload
  }

  /** The message frame the client writes. */
  method WriteTextFrame(payload: seq<Byte>) returns (frame: seq<Byte>)
    requires |payload| < 0x1_0000_0000_0000_0000
    ensures frame == Frame(0x81, payload, Some(Mask(0x13, 0x37, 0x42, 0x99)))
  {
    frame := [0x81];
    if |payload| < 126 {
      frame := frame + [HighBitSet(|payload|)];
    } else if |payload| <= 0xFFFF {
      frame := frame + [HighBitSet(126)];
      frame := frame + BigEndian(|payload|, 2);
    } else {
      frame := frame + [HighBitSet(127)];
      frame := frame + BigEndian(|payload|, 8);
    }
    assert frame == [0x81] + LengthField(|payload|, true);
    frame := frame + TEXT_MASK.Bytes();
    frame := AppendMasked(frame, payload, TEXT_MASK);
  }

  method AppendMasked(before: seq<Byte>, payload: seq<Byte>, mask: Mask) returns (frame: seq<Byte>)
    ensures frame == before + Masked(payload, mask)
  {
    frame := before;
    for i := 0 to |payload|
      invariant frame == before + Masked(payload, mask)[..i]
    {
      frame := frame + [Xor(payload[i], mask.At(i))];
      assert Masked(payload, mask)[..i + 1] == Masked(payload, mask)[..i] + [Xor(payload[i], mask.At(i))];
    }
  }

  datatype WireError = ShortRead | NotText | Closed | UnsupportedOpcode(opcode: Byte) | ControlTooLarge

  /** A control frame, refused above 125 bytes. */
  method WriteControlFrame(opcode: Byte, payload: seq<Byte>) returns (frame: Result<seq<Byte>, WireError>)
    ensures frame == ControlFrame(opcode, payload)
    ensures frame == if |payload| > 125 then Err(ControlTooLarge)
                     else Ok(Frame(HighBitSet(opcode), payload, Some(Mask(0x55, 0xAA, 0x11, 0xEE))))
  {
    if |payload| > 125 {
      return Err(ControlTooLarge);
    }
    var bytes := [HighBitSet(opcode), HighBitSet(|payload|)];
    assert bytes == [HighBitSet(opcode)] + LengthField(|payload|, true);
    bytes := bytes + CONTROL_MASK.Bytes();
    bytes := AppendMasked(bytes, payload, CONTROL_MASK);
    return Ok(bytes);
  }

  function ControlFrame(opcode: Byte, payload: seq<Byte>): Result<seq<Byte>, WireError> {
    if |payload| > 125 then Err(ControlTooLarge) else Ok(Frame(HighBitSet(opcode), payload, Some(CONTROL_MASK)))
  }

  // Parsing.

  datatype Received = Received(opcode: Byte, payload: seq<Byte>, rest: seq<Byte>)

  function Take(input: seq<Byte>, n: nat): Result<(seq<Byte>, seq<Byte>), WireError> {
    if |input| < n then Err(ShortRead) else Ok((input[..n], input[n..]))
  }

  function ParseLength(low: Byte, input: seq<Byte>): Result<(nat, seq<Byte>), WireError> {
    if low == 126 then
      var bytes :- Take(input, 2);
      Ok((FromBigEndian(bytes.0), bytes.1))
    else if low == 127 then
      var bytes :- Take(input, 8);
      Ok((FromBigEndian(bytes.0), bytes.1))
    else Ok((low, input))
  }

  function ParseMask(masked: bool, input: seq<Byte>): Result<(Option<Mask>, seq<Byte>), WireError> {
    if !masked then Ok((None, input))
    else
      var bytes :- Take(input, 4);
      Ok((Some(Mask(bytes.0[0], bytes.0[1], bytes.0[2], bytes.0[3])), bytes.1))
  }

  function Unmasked(payload: seq<Byte>, mask: Option<Mask>): seq<Byte> {
    match mask case Some(m) => Masked(payload, m) case None => payload
  }

  /** Everything after the two header bytes. */
  function ParseBody(low: Byte, masked: bool, input: seq<Byte>): (r: Result<(seq<Byte>, seq<Byte>), WireError>)
    ensures r.Ok? ==> |r.value.1| <= |input|
  {
    var length :- ParseLength(low, input);
    var mask :- ParseMask(masked, length.1);
    var payload :- Take(mask.1, length.0);
    Ok((Unmasked(payload.0, mask.0), payload.1))
  }

  function Parse(input: seq<Byte>): (r: Result<Received, WireError>)
    ensures r.Ok? ==> |r.value.rest| + 2 <= |input|
  {
    var header :- Take(input, 2);
    var body :- ParseBody(LengthBits(header.0[1]), HasMask(header.0[1]), header.1);
    Ok(Received(Opcode(header.0[0]), body.0, body.1))
  }

  lemma TakeFront(a: seq<Byte>, b: seq<Byte>)
    ensures Take(a + b, |a|) == Ok((a, b))
  {
  }

  lemma ParseLengthRoundTrip(n: nat, masked: bool, rest: seq<Byte>)
    requires n < 0x1_0000_0000_0000_0000
    ensures var field := LengthField(n, masked);
            && field != []
            && HasMask(field[0]) == masked
            && ParseLength(LengthBits(field[0]), field[1..] + rest) == Ok((n, rest))
  {
    var field := LengthField(n, masked);
    Powers();
    if n < 126 {
      assert field[1..] + rest == rest;
    } else if n <= 0xFFFF {
      assert field[1..] == BigEndian(n, 2);
      BigEndianRoundTrip(n, 2);
      TakeFront(BigEndian(n, 2), rest);
    } else {
      assert field[1..] == BigEndian(n, 8);
      BigEndianRoundTrip(n, 8);
      TakeFront(BigEndian(n, 8), rest);
    }
  }

  /**
   * On the wire: the first byte, the length in its shortest form with the mask flag, the four bytes of the
   * mask if there is one, and the payload, each byte combined with the mask byte of its place modulo four.
   */
  lemma FrameBytes(first: Byte, payload: seq<Byte>, mask: Option<Mask>, i: nat)
    requires |payload| < 0x1_0000_0000_0000_0000 && i < |payload|
    ensures var frame := Frame(first, payload, mask);
            var n := |payload|;
            var extra := if n < 126 then 0 else if n <= 0xFFFF then 2 else 8;
            var start := if mask.Some? then 6 + extra else 2 + extra;
            && |frame| == start + n
            && frame[0] == first
            && frame[1] == (if n < 126 then n else if n <= 0xFFFF then 126 else 127) + (if mask.Some? then 128 else 0)
            && FromBigEndian(frame[2..2 + extra]) == (if n < 126 then 0 else n)
            && (mask.Some? ==> frame[start - 4..start] == [mask.value.b0, mask.value.b1, mask.value.b2, mask.value.b3])
            && frame[start + i] == if mask.Some? then Xor(payload[i], frame[start - 4 + i % 4]) else payload[i]
  {
    hide Xor, BigEndian, FromBigEndian, LengthField;
    var field := LengthField(|payload|, mask.Some?);
    LengthFieldIs(|payload|, mask.Some?);
    if mask.Some? {
      var four := mask.value.Bytes();
      Layout(first, field, four, Masked(payload, mask.value), i);
      hide Masked;
      assert four[i % 4] == mask.value.At(i);
    } else {
      assert [first] + field + [] + payload == [first] + field + payload;
      Layout(first, field, [], payload, i);
    }
  }

  lemma Layout(first: Byte, field: seq<Byte>, four: seq<Byte>, body: seq<Byte>, i: nat)
    requires field != [] && i < |body|
    ensures var frame, start := [first] + field + four + body, 1 + |field| + |four|;
            && |frame| == start + |body| && frame[0] == first && frame[1] == field[0]
            && frame[2..1 + |field|] == field[1..]
            && frame[1 + |field|..start] == four
            && frame[start + i] == body[i]
            && forall k :: 0 <= k < |four| ==> frame[1 + |field| + k] == four[k]
  {
  }

  lemma LengthFieldIs(n: nat, masked: bool)
    requires n < 0x1_0000_0000_0000_0000
    ensures var field := LengthField(n, masked);
            && |field| == 1 + (if n < 126 then 0 else if n <= 0xFFFF then 2 else 8)
            && field[0] == (if n < 126 then n else if n <= 0xFFFF then 126 else 127) + (if masked then 128 else 0)
            && FromBigEndian(field[1..]) == if n < 126 then 0 else n
  {
    hide FromBigEndian, BigEndian;
    Powers();
    var field := LengthField(n, masked);
    if n < 126 {
      assert field[1..] == [];
      NoBytes();
    } else if n <= 0xFFFF {
      assert field[1..] == BigEndian(n, 2);
      BigEndianRoundTrip(n, 2);
    } else {
      assert field[1..] == BigEndian(n, 8);
      BigEndianRoundTrip(n, 8);
    }
  }

  lemma NoBytes()
    ensures FromBigEndian([]) == 0
  {
  }

  function MaskBytes(mask: Option<Mask>): seq<Byte> {
    match mask case Some(m) => m.Bytes() case None => []
  }

  lemma FrameLayout(first: Byte, payload: seq<Byte>, mask: Option<Mask>, field: seq<Byte>, rest: seq<Byte>)
    requires |payload| < 0x1_0000_0000_0000_0000
    requires field == LengthField(|payload|, mask.Some?) && field != []
    ensures Frame(first, payload, mask) + rest ==
            [first, field[0]] + (field[1..] + (MaskBytes(mask) + (Unmasked(payload, mask) + rest)))
  {
    assert field == [field[0]] + field[1..];
    hide LengthField, Masked;
    match mask
    case Some(m) =>
      JoinBytes([first], field, m.Bytes(), Masked(payload, m), rest);
    case None =>
      JoinBytes([first], field, [], payload, rest);
      assert [first] + field + [] == [first] + field;
  }

  lemma JoinBytes(first: seq<Byte>, field: seq<Byte>, mask: seq<Byte>, body: seq<Byte>, rest: seq<Byte>)
    requires |first| == 1 && field != []
    ensures first + field + mask + body + rest == [first[0], field[0]] + (field[1..] + (mask + (body + rest)))
  {
    assert field == [field[0]] + field[1..];
  }

  lemma ParseByParts(input: seq<Byte>, first: Byte, second: Byte, r1: seq<Byte>, n: nat, r2: seq<Byte>,
                     mask: Option<Mask>, body: seq<Byte>, rest: seq<Byte>)
    requires Take(input, 2) == Ok(([first, second], r1))
    requires ParseLength(LengthBits(second), r1) == Ok((n, r2))
    requires ParseMask(HasMask(second), r2) == Ok((mask, body + rest)) && |body| == n
    ensures Parse(input) == Ok(Received(Opcode(first), Unmasked(body, mask), rest))
  {
    hide ParseLength, ParseMask;
    TakeFront(body, rest);
  }

  lemma ParseMaskRoundTrip(mask: Option<Mask>, rest: seq<Byte>)
    ensures ParseMask(mask.Some?, MaskBytes(mask) + rest) == Ok((mask, rest))
  {
    if mask.Some? {
      TakeFront(mask.value.Bytes(), rest);
    } else {
      assert [] + rest == rest;
    }
  }

  lemma UnmaskedTwice(payload: seq<Byte>, mask: Option<Mask>)
    ensures Unmasked(Unmasked(payload, mask), mask) == payload && |Unmasked(payload, mask)| == |payload|
  {
    if mask.Some? {
      MaskedTwice(payload, mask.value);
    }
  }

  /** A frame is read back as its payload, and exactly the frame is consumed. */
  lemma FrameRoundTrip(first: Byte, payload: seq<Byte>, mask: Option<Mask>, rest: seq<Byte>)
    requires |payload| < 0x1_0000_0000_0000_0000
    ensures Parse(Frame(first, payload, mask) + rest) == Ok(Received(Opcode(first), payload, rest))
  {
    hide Frame, LengthField, ParseLength, ParseMask, Parse, Take, MaskBytes, Unmasked;
    var field := LengthField(|payload|, mask.Some?);
    var body := Unmasked(payload, mask);
    var afterLength := MaskBytes(mask) + (body + rest);
    ParseLengthRoundTrip(|payload|, mask.Some?, afterLength);
    FrameLayout(first, payload, mask, field, rest);
    TakeFront([first, field[0]], field[1..] + afterLength);
    ParseMaskRoundTrip(mask, body + rest);
    UnmaskedTwice(payload, mask);
    ParseByParts(Frame(first, payload, mask) + rest, first, field[0], field[1..] +
      afterLength, |payload|, afterLength, mask, body, rest);
  }

  // The shortest form.

  lemma FieldSize(n: nat, masked: bool)
    requires n < 0x1_0000_0000_0000_0000
    ensures |LengthField(n, masked)| == if n < 126 then 1 else if n <= 0xFFFF then 3 else 9
  {
  }

  lemma LengthNeedsRoom(low: Byte, input: seq<Byte>)
    requires low < 128 && ParseLength(low, input).Ok?
    ensures var r := ParseLength(low, input).value;
            && r.0 < 0x1_0000_0000_0000_0000
            && |input| - |r.1| >= if r.0 < 126 then 0 else if r.0 <= 0xFFFF then 2 else 8
  {
    Powers();
    if low == 126 {
      BigEndianBound(input[..2]);
    } else if low == 127 {
      BigEndianBound(input[..8]);
    }
  }

  /** No byte string that is read as the same frame, masked alike, is shorter than the one written. */
  lemma FrameIsShortest(first: Byte, payload: seq<Byte>, mask: Option<Mask>, bytes: seq<Byte>, opcode: Byte)
    requires |payload| < 0x1_0000_0000_0000_0000
    requires Parse(bytes) == Ok(Received(opcode, payload, []))
    requires HasMask(bytes[1]) == mask.Some?
    ensures |Frame(first, payload, mask)| <= |bytes|
  {
    LengthNeedsRoom(LengthBits(bytes[1]), bytes[2..]);
    FieldSize(|payload|, mask.Some?);
  }
}
