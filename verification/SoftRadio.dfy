/** Bytes and their numeric values. */
module Bytes {
  type Byte = bv8

  /** The byte of value `n`, one hexadecimal digit at a time. */
  function ToByte(n: nat): Byte
    requires n < 256
  {
    Join((n / 16) as Byte, (n % 16) as Byte)
  }

  function Join(high: Byte, low: Byte): Byte {
    (high << 4) | low
  }

  function ToNat(b: Byte): nat {
    b as nat
  }

  lemma DigitRoundTrip(n: nat)
    requires n < 16
    ensures (n as Byte) < 16 && ToNat(n as Byte) == n
  {
  }

  lemma JoinValue(high: Byte, low: Byte)
    requires high < 16 && low < 16
    ensures ToNat(Join(high, low)) == 16 * ToNat(high) + ToNat(low)
  {
  }

  lemma ByteRoundTrip(n: nat)
    requires n < 256
    ensures ToNat(ToByte(n)) == n
  {
    DigitRoundTrip(n / 16);
    DigitRoundTrip(n % 16);
    hide ToNat, Join;
    JoinValue((n / 16) as Byte, (n % 16) as Byte);
  }

  lemma NatBelow256(b: Byte)
    ensures ToNat(b) < 256
  {
  }

  lemma SmallNat(b: Byte)
    ensures ToNat(b) < 126 <==> b < 126
  {
  }

  lemma SameNat(a: Byte, b: Byte)
    requires ToNat(a) == ToNat(b)
    ensures a == b
  {
  }

  lemma NatRoundTrip(b: Byte)
    ensures ToNat(b) < 256 && ToByte(ToNat(b)) == b
  {
    NatBelow256(b);
    hide ToNat, ToByte;
    ByteRoundTrip(ToNat(b));
    SameNat(ToByte(ToNat(b)), b);
  }
}

/** The WebSocket framing and the listener queue of core/soft_radio.py; frames as in sections 5.2 and 5.3 of
    RFC 6455. */
module SoftRadio {
  import opened Prelude
  import opened Bytes

  datatype ReadResult =
    | Frame(opcode: Byte, payload: seq<Byte>)
    | Rejected      // fragmented, unmasked or of an unknown opcode
    | Oversized
    | Disconnected  // the stream ended inside the frame

  // ---------------------------------------------------------------------------------------------------
  // Big-endian lengths.

  function BigEndian(n: nat, size: nat): seq<Byte>
    decreases size
  {
    if size == 0 then [] else BigEndian(n / 256, size - 1) + [ToByte(n % 256)]
  }

  function FromBigEndian(s: seq<Byte>): nat {
    if s == [] then 0 else FromBigEndian(s[..|s| - 1]) * 256 + ToNat(s[|s| - 1])
  }

  function Pow256(k: nat): nat {
    if k == 0 then 1 else 256 * Pow256(k - 1)
  }

  lemma {:induction false} BigEndianRoundTrip(n: nat, size: nat)
    requires n < Pow256(size)
    ensures |BigEndian(n, size)| == size && FromBigEndian(BigEndian(n, size)) == n
    decreases size
  {
    if size > 0 {
      hide ToByte, ToNat;
      BigEndianRoundTrip(n / 256, size - 1);
      ByteRoundTrip(n % 256);
      var s := BigEndian(n, size);
      assert s[..|s| - 1] == BigEndian(n / 256, size - 1);
    }
  }

  // ---------------------------------------------------------------------------------------------------
  // Reading a client frame.

  predicate KnownOpcode(opcode: Byte) {
    opcode == 1 || opcode == 2 || opcode == 8 || opcode == 9 || opcode == 10
  }

  function Unmask(payload: seq<Byte>, mask: seq<Byte>): seq<Byte>
    requires |mask| == 4
  {
    seq(|payload|, i requires 0 <= i < |payload| => payload[i] ^ mask[i % 4])
  }

  /** The extra length bytes that the 7-bit field announces. */
  function ExtraBytes(field: Byte): nat {
    if field == 126 then 2 else if field == 127 then 8 else 0
  }

  /** The first `n` bytes and the rest, if there are that many. */
  function Split(s: seq<Byte>, n: nat): Option<(seq<Byte>, seq<Byte>)> {
    if n <= |s| then Some((s[..n], s[n..])) else None
  }

  lemma SplitConcat(a: seq<Byte>, b: seq<Byte>)
    ensures Split(a + b, |a|) == Some((a, b))
  {
    assert (a + b)[..|a|] == a && (a + b)[|a|..] == b;
  }

  lemma ConcatAssoc(a: seq<Byte>, b: seq<Byte>, c: seq<Byte>)
    ensures (a + b) + c == a + (b + c)
  {
  }

  function DecodeLength(field: Byte, s: seq<Byte>): Option<(nat, seq<Byte>)> {
    if ExtraBytes(field) == 0 then Some((ToNat(field), s))
    else
      match Split(s, ExtraBytes(field))
      case None => None
      case Some((bytes, rest)) => Some((FromBigEndian(bytes), rest))
  }

  function DecodeBody(opcode: Byte, length: nat, maximum: nat, s: seq<Byte>): (ReadResult, seq<Byte>) {
    if length > maximum || (opcode >= 8 && length > 125) then (Oversized, s)
    else
      match Split(s, 4)
      case None => (Disconnected, [])
      case Some((mask, tail)) =>
        match Split(tail, length)
        case None => (Disconnected, [])
        case Some((body, rest)) => (Frame(opcode, Unmask(body, mask)), rest)
  }

  function OpcodeOf(first: Byte): Byte {
    first & 0x0F
  }

  function FieldOf(second: Byte): Byte {
    second & 0x7F
  }

  predicate Acceptable(first: Byte, second: Byte) {
    first & 0x70 == 0 && KnownOpcode(OpcodeOf(first)) && first & 0x80 != 0 && second & 0x80 != 0
  }

  /** `read_frame` as a function of everything the stream will ever deliver: the result and what is left. */
  function Decode(stream: seq<Byte>, maximum: nat): (ReadResult, seq<Byte>) {
    match Split(stream, 2)
    case None => (Disconnected, [])
    case Some((header, s)) =>
      if !Acceptable(header[0], header[1]) then (Rejected, s)
      else
        match DecodeLength(FieldOf(header[1]), s)
        case None => (Disconnected, [])
        case Some((length, rest)) => DecodeBody(OpcodeOf(header[0]), length, maximum, rest)
  }

  /** A socket that hands out what is still to come in pieces of its own choosing. */
  class Socket {
    var pending: seq<Byte>

    constructor (data: seq<Byte>)
      ensures pending == data
    {
      pending := data;
    }

    method Recv(limit: nat) returns (chunk: seq<Byte>)
      requires limit > 0
      modifies this
      ensures |chunk| <= limit && old(pending) == chunk + pending
      ensures chunk == [] <==> old(pending) == []
    {
      if pending == [] {
        return [];
      }
      var size: nat :| 1 <= size <= limit && size <= |pending|;
      chunk := pending[..size];
      pending := pending[size..];
    }

    /** `_read_exact`: None when the stream ends first. */
    method ReadExact(length: nat) returns (data: Option<seq<Byte>>)
      modifies this
      ensures match Split(old(pending), length)
              case None => data == None && pending == []
              case Some((bytes, rest)) => data == Some(bytes) && pending == rest
    {
      var buffer: seq<Byte> := [];
      while |buffer| < length
        invariant |buffer| <= length
        invariant buffer + pending == old(pending)
      {
        var chunk := Recv(length - |buffer|);
        if chunk == [] {
          return None;
        }
        buffer := buffer + chunk;
      }
      SplitConcat(buffer, pending);
      return Some(buffer);
    }

    method ReadLength(field: Byte) returns (length: Option<nat>)
      modifies this
      ensures match DecodeLength(field, old(pending))
              case None => length == None && pending == []
              case Some((n, rest)) => length == Some(n) && pending == rest
    {
      hide Split, FromBigEndian, ToNat;
      if field == 126 {
        var more := ReadExact(2);
        return if more.None? then None else Some(FromBigEndian(more.value));
      } else if field == 127 {
        var more := ReadExact(8);
        return if more.None? then None else Some(FromBigEndian(more.value));
      }
      return Some(ToNat(field));
    }

    method ReadBody(opcode: Byte, length: nat, maximum: nat) returns (result: ReadResult)
      modifies this
      ensures (result, pending) == DecodeBody(opcode, length, maximum, old(pending))
    {
      if length > maximum || (opcode >= 8 && length > 125) {
        return Oversized;
      }
      var mask := ReadExact(4);
      if mask.None? {
        return Disconnected;
      }
      var payload := ReadExact(length);
      if payload.None? {
        return Disconnected;
      }
      return Frame(opcode, Unmask(payload.value, mask.value));
    }

    /** `read_frame`. However the bytes arrive, the result is the one of `Decode`. */
    method ReadFrame(maximum: nat) returns (result: ReadResult)
      modifies this
      ensures (result, pending) == Decode(old(pending), maximum)
    {
      hide DecodeLength, DecodeBody;
      var header := ReadExact(2);
      if header.None? {
        return Disconnected;
      }
      var first, second := header.value[0], header.value[1];
      var opcode := OpcodeOf(first);
      if first & 0x70 != 0 || !KnownOpcode(opcode) || first & 0x80 == 0 || second & 0x80 == 0 {
        assert !Acceptable(first, second);
        return Rejected;
      }
      assert Acceptable(first, second);
      hide Acceptable, OpcodeOf, FieldOf, KnownOpcode;
      var length := ReadLength(FieldOf(second));
      if length.None? {
        return Disconnected;
      }
      result := ReadBody(opcode, length.value, maximum);
    }
  }

  // ---------------------------------------------------------------------------------------------------
  // Client frames.

  /** The three ways to write a length; a client may use a longer one than it needs. */
  datatype LengthForm = Short | Medium | Long

  predicate Holds(form: LengthForm, length: nat) {
    match form
    case Short => length < 126
    case Medium => length < 65536
    case Long => length < 0x1_0000_0000_0000_0000
  }

  function LengthField(form: LengthForm, length: nat): Byte
    requires Holds(form, length)
  {
    match form
    case Short => ToByte(length)
    case Medium => 126
    case Long => 127
  }

  function LengthBytes(form: LengthForm, length: nat): seq<Byte> {
    match form
    case Short => []
    case Medium => BigEndian(length, 2)
    case Long => BigEndian(length, 8)
  }

  function EncodeMasked(opcode: Byte, form: LengthForm, mask: seq<Byte>, payload: seq<Byte>): seq<Byte>
    requires |mask| == 4 && Holds(form, |payload|)
  {
    [0x80 | opcode, 0x80 | LengthField(form, |payload|)]
    + (LengthBytes(form, |payload|) + (mask + Unmask(payload, mask)))
  }

  lemma HeaderBits(opcode: Byte, field: Byte)
    requires KnownOpcode(opcode) && field < 0x80
    ensures OpcodeOf(0x80 | opcode) == opcode && FieldOf(0x80 | field) == field
    ensures Acceptable(0x80 | opcode, 0x80 | field)
  {
  }

  lemma XorTwice(a: Byte, b: Byte)
    ensures (a ^ b) ^ b == a
  {
  }

  lemma UnmaskTwice(payload: seq<Byte>, mask: seq<Byte>)
    requires |mask| == 4
    ensures Unmask(Unmask(payload, mask), mask) == payload
  {
    forall i | 0 <= i < |payload| ensures (payload[i] ^ mask[i % 4]) ^ mask[i % 4] == payload[i] {
      XorTwice(payload[i], mask[i % 4]);
    }
  }

  lemma PowersOf256()
    ensures Pow256(2) == 65536 && Pow256(8) == 0x1_0000_0000_0000_0000
  {
    assert Pow256(2) == 65536;
    assert Pow256(4) == 0x1_0000_0000;
    assert Pow256(6) == 0x1_0000_0000_0000;
  }

  lemma SmallField(n: nat)
    requires n < 126
    ensures ToByte(n) < 0x80 && ToByte(n) != 126 && ToByte(n) != 127
  {
  }

  /** The bytes between the header and the mask say how long the payload is. */
  lemma LengthRoundTrip(form: LengthForm, length: nat)
    requires Holds(form, length)
    ensures |LengthBytes(form, length)| == ExtraBytes(LengthField(form, length))
    ensures LengthField(form, length) < 0x80
    ensures ExtraBytes(LengthField(form, length)) == 0 ==> ToNat(LengthField(form, length)) == length
    ensures ExtraBytes(LengthField(form, length)) != 0 ==> FromBigEndian(LengthBytes(form, length)) == length
  {
    PowersOf256();
    hide ToByte, ToNat, Pow256, BigEndian, FromBigEndian;
    match form
    case Short =>
      SmallField(length);
      ByteRoundTrip(length);
    case Medium => BigEndianRoundTrip(length, 2);
    case Long => BigEndianRoundTrip(length, 8);
  }

  predicate WithinLimits(opcode: Byte, length: nat, maximum: nat) {
    length <= maximum && (opcode >= 8 ==> length <= 125)
  }

  lemma LengthIsDecoded(form: LengthForm, length: nat, rest: seq<Byte>)
    requires Holds(form, length)
    ensures DecodeLength(LengthField(form, length), LengthBytes(form, length) + rest) == Some((length, rest))
  {
    LengthRoundTrip(form, length);
    SplitConcat(LengthBytes(form, length), rest);
    hide LengthBytes, FromBigEndian, BigEndian, ToNat, ToByte;
    if LengthBytes(form, length) == [] {
      assert LengthBytes(form, length) + rest == rest;
    }
    hide Split;
  }

  lemma BodyIsDecoded(opcode: Byte, mask: seq<Byte>, payload: seq<Byte>, rest: seq<Byte>, maximum: nat)
    requires |mask| == 4
    ensures var result := DecodeBody(opcode, |payload|, maximum, mask + (Unmask(payload, mask) + rest));
            if WithinLimits(opcode, |payload|, maximum) then result == (Frame(opcode, payload), rest)
            else result.0 == Oversized
  {
    var body := Unmask(payload, mask);
    SplitConcat(mask, body + rest);
    SplitConcat(body, rest);
    UnmaskTwice(payload, mask);
    hide Unmask, Split;
  }

  /** Every frame a client can write is read back exactly when it is within the limits, and reading it leaves the
      rest of the stream untouched. */
  lemma FrameRoundTrip(opcode: Byte, form: LengthForm, mask: seq<Byte>, payload: seq<Byte>, rest: seq<Byte>, maximum: nat)
    requires KnownOpcode(opcode) && |mask| == 4 && Holds(form, |payload|)
    ensures var result := Decode(EncodeMasked(opcode, form, mask, payload) + rest, maximum);
            if WithinLimits(opcode, |payload|, maximum) then result == (Frame(opcode, payload), rest)
            else result.0 == Oversized
  {
    var length := |payload|;
    var field := LengthField(form, length);
    LengthRoundTrip(form, length);
    HeaderBits(opcode, field);
    hide LengthField, LengthBytes, Unmask, DecodeLength, DecodeBody, Split, OpcodeOf, FieldOf, Acceptable, KnownOpcode;
    var header := [0x80 | opcode, 0x80 | field];
    var tail := mask + (Unmask(payload, mask) + rest);
    var s := LengthBytes(form, length) + tail;
    ConcatAssoc(mask, Unmask(payload, mask), rest);
    ConcatAssoc(LengthBytes(form, length), mask + Unmask(payload, mask), rest);
    ConcatAssoc(header, LengthBytes(form, length) + (mask + Unmask(payload, mask)), rest);
    SplitConcat(header, s);
    LengthIsDecoded(form, length, tail);
    BodyIsDecoded(opcode, mask, payload, rest, maximum);
  }

  // ---------------------------------------------------------------------------------------------------
  // The converse: whatever is read as a frame was an encoding of it.

  lemma HeaderIsEncoded(first: Byte, second: Byte)
    requires Acceptable(first, second)
    ensures first == 0x80 | OpcodeOf(first) && second == 0x80 | FieldOf(second) && FieldOf(second) < 0x80
  {
  }

  lemma {:induction false} FromBigEndianBound(s: seq<Byte>)
    ensures FromBigEndian(s) < Pow256(|s|)
  {
    hide ToNat;
    if s != [] {
      FromBigEndianBound(s[..|s| - 1]);
      NatBelow256(s[|s| - 1]);
    }
  }

  lemma {:induction false} BigEndianBack(s: seq<Byte>)
    ensures BigEndian(FromBigEndian(s), |s|) == s
  {
    if s != [] {
      hide ToNat, ToByte;
      var init, last := s[..|s| - 1], s[|s| - 1];
      BigEndianBack(init);
      NatBelow256(last);
      NatRoundTrip(last);
      assert FromBigEndian(s) / 256 == FromBigEndian(init) && FromBigEndian(s) % 256 == ToNat(last);
      assert s == init + [last];
    }
  }

  /** The form in which a field and its extra bytes give a length. */
  function FormOf(field: Byte): LengthForm {
    if field == 126 then Medium else if field == 127 then Long else Short
  }

  lemma LengthIsEncoded(field: Byte, s: seq<Byte>)
    requires field < 0x80 && DecodeLength(field, s).Some?
    ensures var (length, rest) := DecodeLength(field, s).value;
            && Holds(FormOf(field), length) && LengthField(FormOf(field), length) == field
            && s == LengthBytes(FormOf(field), length) + rest
  {
    hide ToByte, ToNat, BigEndian, FromBigEndian, Pow256;
    PowersOf256();
    var n := ExtraBytes(field);
    if n == 0 {
      SmallNat(field);
      NatRoundTrip(field);
      assert [] + s == s;
    } else {
      FromBigEndianBound(s[..n]);
      BigEndianBack(s[..n]);
      assert s == s[..n] + s[n..];
    }
  }

  /** A stream is read as a frame only if it begins with an encoding of that frame, in some form and under some mask. */
  lemma DecodedIsEncoded(stream: seq<Byte>, maximum: nat) returns (form: LengthForm, mask: seq<Byte>)
    requires Decode(stream, maximum).0.Frame?
    ensures var (frame, rest) := Decode(stream, maximum);
            && KnownOpcode(frame.opcode) && |mask| == 4 && Holds(form, |frame.payload|)
            && WithinLimits(frame.opcode, |frame.payload|, maximum)
            && stream == EncodeMasked(frame.opcode, form, mask, frame.payload) + rest
  {
    hide LengthField, LengthBytes, Unmask, DecodeLength, DecodeBody, OpcodeOf, FieldOf, Acceptable, KnownOpcode, Holds;
    var header, s := stream[..2], stream[2..];
    AcceptedOpcode(header[0], header[1]);
    HeaderIsEncoded(header[0], header[1]);
    LengthIsEncoded(FieldOf(header[1]), s);
    form := FormOf(FieldOf(header[1]));
    var (length, tail) := DecodeLength(FieldOf(header[1]), s).value;
    mask := BodyIsEncoded(OpcodeOf(header[0]), length, maximum, tail);
    var (frame, rest) := Decode(stream, maximum);
    Reassembled(stream, header, s, LengthBytes(form, length), tail, mask, Unmask(frame.payload, mask), rest);
    assert header == [0x80 | OpcodeOf(header[0]), 0x80 | FieldOf(header[1])];
  }

  lemma BodyIsEncoded(opcode: Byte, length: nat, maximum: nat, s: seq<Byte>) returns (mask: seq<Byte>)
    requires DecodeBody(opcode, length, maximum, s).0.Frame?
    ensures var (frame, rest) := DecodeBody(opcode, length, maximum, s);
            && frame.opcode == opcode && |frame.payload| == length && |mask| == 4
            && WithinLimits(opcode, length, maximum) && s == mask + (Unmask(frame.payload, mask) + rest)
  {
    hide Unmask;
    mask := s[..4];
    var body := s[4..][..length];
    UnmaskTwice(body, mask);
    UnmaskedLength(body, mask);
    assert s[4..] == body + s[4..][length..];
  }

  lemma AcceptedOpcode(first: Byte, second: Byte)
    requires Acceptable(first, second)
    ensures KnownOpcode(OpcodeOf(first))
  {
  }

  lemma UnmaskedLength(body: seq<Byte>, mask: seq<Byte>)
    requires |mask| == 4
    ensures |Unmask(body, mask)| == |body|
  {
  }

  lemma Reassembled(stream: seq<Byte>, header: seq<Byte>, s: seq<Byte>, length: seq<Byte>, tail: seq<Byte>, mask: seq<Byte>,
                    body: seq<Byte>, rest: seq<Byte>)
    requires stream == header + s && s == length + tail && tail == mask + (body + rest)
    ensures stream == header + (length + (mask + body)) + rest
  {
    assert mask + (body + rest) == (mask + body) + rest;
    assert length + ((mask + body) + rest) == (length + (mask + body)) + rest;
    assert header + ((length + (mask + body)) + rest) == header + (length + (mask + body)) + rest;
  }

  /** Exactly which headers are refused: anything but one whole, unreserved and masked text, binary, close, ping or pong
      frame. */
  lemma RejectedIff(stream: seq<Byte>, maximum: nat)
    ensures Decode(stream, maximum).0 == Rejected <==>
              |stream| >= 2 && !(stream[0] in {0x81, 0x82, 0x88, 0x89, 0x8A} && stream[1] >= 0x80)
  {
    if |stream| >= 2 {
      HeaderIff(stream[0], stream[1]);
    }
    hide Acceptable, DecodeLength, KnownOpcode;
  }

  lemma HeaderIff(first: Byte, second: Byte)
    ensures Acceptable(first, second) <==> first in {0x81, 0x82, 0x88, 0x89, 0x8A} && second >= 0x80
  {
  }

  datatype ClientFrame = ClientFrame(opcode: Byte, form: LengthForm, mask: seq<Byte>, payload: seq<Byte>)

  predicate Sendable(f: ClientFrame, maximum: nat) {
    && KnownOpcode(f.opcode) && |f.mask| == 4 && Holds(f.form, |f.payload|)
    && WithinLimits(f.opcode, |f.payload|, maximum)
  }

  ghost predicate AllSendable(frames: seq<ClientFrame>, maximum: nat) {
    forall i :: 0 <= i < |frames| ==> Sendable(frames[i], maximum)
  }

  ghost function EncodeAll(frames: seq<ClientFrame>, maximum: nat): seq<Byte>
    requires AllSendable(frames, maximum)
  {
    if frames == [] then []
    else
      var f := frames[0];
      EncodeMasked(f.opcode, f.form, f.mask, f.payload) + EncodeAll(frames[1..], maximum)
  }

  /** Read `n` frames in a row. */
  function DecodeMany(stream: seq<Byte>, maximum: nat, n: nat): (seq<ReadResult>, seq<Byte>)
    decreases n
  {
    if n == 0 then ([], stream)
    else
      var (first, rest) := Decode(stream, maximum);
      var (others, end) := DecodeMany(rest, maximum, n - 1);
      ([first] + others, end)
  }

  function Contents(frames: seq<ClientFrame>): seq<ReadResult> {
    seq(|frames|, i requires 0 <= i < |frames| => Frame(frames[i].opcode, frames[i].payload))
  }

  lemma FirstSendable(frames: seq<ClientFrame>, maximum: nat)
    requires AllSendable(frames, maximum) && frames != []
    ensures Sendable(frames[0], maximum) && AllSendable(frames[1..], maximum)
  {
  }

  lemma NoContents()
    ensures Contents([]) == []
  {
  }

  /** Any concatenation of frames parses back. */
  lemma {:induction false} StreamRoundTrip(frames: seq<ClientFrame>, rest: seq<Byte>, maximum: nat)
    requires AllSendable(frames, maximum)
    ensures DecodeMany(EncodeAll(frames, maximum) + rest, maximum, |frames|) == (Contents(frames), rest)
  {
    hide Decode, EncodeMasked, AllSendable, Contents;
    if frames == [] {
      NoContents();
      assert [] + rest == rest;
    } else {
      FirstSendable(frames, maximum);
      var f, tail := frames[0], frames[1..];
      var first := EncodeMasked(f.opcode, f.form, f.mask, f.payload);
      var others := EncodeAll(tail, maximum) + rest;
      ConcatAssoc(first, EncodeAll(tail, maximum), rest);
      FrameRoundTrip(f.opcode, f.form, f.mask, f.payload, others, maximum);
      StreamRoundTrip(tail, rest, maximum);
      ContentsCons(frames);
    }
  }

  lemma ContentsCons(frames: seq<ClientFrame>)
    requires frames != []
    ensures Contents(frames) == [Frame(frames[0].opcode, frames[0].payload)] + Contents(frames[1..])
  {
  }

  // ---------------------------------------------------------------------------------------------------
  // Server frames.

  /** `make_frame`: unmasked, with the shortest length form. */
  function MakeFrame(opcode: Byte, payload: seq<Byte>): seq<Byte>
    requires |payload| < 0x1_0000_0000_0000_0000
  {
    if |payload| < 126 then [0x80 | opcode, ToByte(|payload|)] + payload
    else if |payload| <= 65535 then [0x80 | opcode, 126] + (BigEndian(|payload|, 2) + payload)
    else [0x80 | opcode, 127] + (BigEndian(|payload|, 8) + payload)
  }

  /** A client's reading of an unmasked frame. */
  function DecodeServer(stream: seq<Byte>): Option<(Byte, seq<Byte>, seq<Byte>)> {
    match Split(stream, 2)
    case None => None
    case Some((header, s)) =>
      if header[0] & 0xF0 != 0x80 || header[1] & 0x80 != 0 then None
      else
        match DecodeLength(header[1], s)
        case None => None
        case Some((length, tail)) =>
          match Split(tail, length)
          case None => None
          case Some((payload, rest)) => Some((header[0] & 0x0F, payload, rest))
  }

  lemma ServerBits(opcode: Byte, field: Byte)
    requires opcode < 16 && field < 0x80
    ensures (0x80 | opcode) & 0xF0 == 0x80 && (0x80 | opcode) & 0x0F == opcode && field & 0x80 == 0
  {
  }

  function ShortestForm(length: nat): LengthForm {
    if length < 126 then Short else if length <= 65535 then Medium else Long
  }

  lemma ServerFrameShape(opcode: Byte, payload: seq<Byte>)
    requires |payload| < 0x1_0000_0000_0000_0000
    ensures var form := ShortestForm(|payload|);
            MakeFrame(opcode, payload) ==
            [0x80 | opcode, LengthField(form, |payload|)] + (LengthBytes(form, |payload|) + payload)
  {
    hide ToByte, BigEndian;
    assert [] + payload == payload;
  }

  /** `make_frame` loses nothing, in each of its three length forms. */
  lemma ServerFrameRoundTrip(opcode: Byte, payload: seq<Byte>, rest: seq<Byte>)
    requires opcode < 16 && |payload| < 0x1_0000_0000_0000_0000
    ensures DecodeServer(MakeFrame(opcode, payload) + rest) == Some((opcode, payload, rest))
  {
    var form := ShortestForm(|payload|);
    var field := LengthField(form, |payload|);
    ServerFrameShape(opcode, payload);
    LengthRoundTrip(form, |payload|);
    ServerBits(opcode, field);
    hide LengthField, LengthBytes, DecodeLength, Split, MakeFrame;
    var header := [0x80 | opcode, field];
    var s := LengthBytes(form, |payload|) + (payload + rest);
    ConcatAssoc(LengthBytes(form, |payload|), payload, rest);
    ConcatAssoc(header, LengthBytes(form, |payload|) + payload, rest);
    SplitConcat(header, s);
    LengthIsDecoded(form, |payload|, payload + rest);
    SplitConcat(payload, rest);
  }

  // ---------------------------------------------------------------------------------------------------
  // The drop-oldest queue of a listener.

  function Newest<T>(s: seq<T>, n: nat): seq<T> {
    if |s| <= n then s else s[|s| - n..]
  }

  class BrowserClient {
    const maximum: nat
    var queue: seq<seq<Byte>>
    var dropped: nat
    var sent: seq<Byte>
    /** Every payload offered since the last drain. */
    ghost var offered: seq<seq<Byte>>
    /** `dropped` at the last drain. */
    ghost var droppedBefore: nat

    ghost predicate Valid()
      reads this
    {
      && maximum >= 1
      && queue == Newest(offered, maximum)
      && dropped - droppedBefore == |offered| - |queue|
    }

    constructor (maximum: nat)
      requires maximum >= 1
      ensures Valid() && this.maximum == maximum && offered == [] && dropped == 0 && sent == []
    {
      this.maximum := maximum;
      queue, dropped, sent := [], 0, [];
      offered, droppedBefore := [], 0;
    }

    method Enqueue(payload: seq<Byte>)
      requires Valid()
      modifies this
      ensures Valid() && offered == old(offered) + [payload] && sent == old(sent)
      ensures droppedBefore == old(droppedBefore)
    {
      if |queue| == maximum {
        queue := queue[1..];
        dropped := dropped + 1;
      }
      queue := queue + [payload];
      offered := offered + [payload];
    }

    /** The newest payloads go out in order, as binary frames. */
    method Drain()
      requires Valid()
      requires forall i :: 0 <= i < |queue| ==> |queue[i]| < 0x1_0000_0000_0000_0000
      modifies this
      ensures Valid() && offered == [] && dropped == old(dropped)
      ensures sent == old(sent) + MakeFrames(Newest(old(offered), maximum))
    {
      hide MakeFrame;
      var frames := queue;
      queue := [];
      offered, droppedBefore := [], dropped;
      for i := 0 to |frames|
        invariant Valid() && offered == [] && dropped == old(dropped)
        invariant sent == old(sent) + MakeFrames(frames[..i])
      {
        assert frames[..i + 1][..i] == frames[..i];
        sent := sent + MakeFrame(2, frames[i]);
      }
      assert frames[..|frames|] == frames;
    }
  }

  function MakeFrames(payloads: seq<seq<Byte>>): seq<Byte>
    requires forall i :: 0 <= i < |payloads| ==> |payloads[i]| < 0x1_0000_0000_0000_0000
  {
    if payloads == [] then []
    else MakeFrames(payloads[..|payloads| - 1]) + MakeFrame(2, payloads[|payloads| - 1])
  }

  lemma {:induction false} FramesCons(payload: seq<Byte>, payloads: seq<seq<Byte>>)
    requires forall p :: p in [payload] + payloads ==> |p| < 0x1_0000_0000_0000_0000
    ensures MakeFrames([payload] + payloads) == MakeFrame(2, payload) + MakeFrames(payloads)
    decreases payloads
  {
    hide MakeFrame;
    var all := [payload] + payloads;
    if payloads == [] {
      assert all[..0] == [] && [] + MakeFrame(2, payload) == MakeFrame(2, payload) == MakeFrame(2, payload) + [];
    } else {
      var init, last := payloads[..|payloads| - 1], payloads[|payloads| - 1];
      assert all[..|all| - 1] == [payload] + init;
      FramesCons(payload, init);
      ConcatAssoc(MakeFrame(2, payload), MakeFrames(init), MakeFrame(2, last));
    }
  }

  /** What is drained reads back as binary frames, one for each payload and in their order. */
  lemma DrainedReadsBack(payload: seq<Byte>, payloads: seq<seq<Byte>>, rest: seq<Byte>)
    requires forall p :: p in [payload] + payloads ==> |p| < 0x1_0000_0000_0000_0000
    ensures DecodeServer(MakeFrames([payload] + payloads) + rest) == Some((0x02, payload, MakeFrames(payloads) + rest))
  {
    FramesCons(payload, payloads);
    ServerFrameRoundTrip(2, payload, MakeFrames(payloads) + rest);
    hide MakeFrame, MakeFrames, DecodeServer;
    ConcatAssoc(MakeFrame(2, payload), MakeFrames(payloads), rest);
  }
}
