/** The HID-RPC wire format (hidproto.go) and the attached device that reads it.

    A frame is one type byte followed by a payload. `Report` names the frames
    the client can build, `Encode` writes them with the source's encoders, and
    `Receive` is the device's own reading of raw bytes: three independent
    interfaces, keyboard, absolute pointer and relative mouse. */
module HidProto {
  import opened Outcomes
  import opened Words

  const TYPE_HANDSHAKE: byte := 0x01
  const TYPE_KEYBOARD_REPORT: byte := 0x02
  const TYPE_POINTER_REPORT: byte := 0x03
  const TYPE_MOUSE_REPORT: byte := 0x06

  const PROTOCOL_VERSION: byte := 0x01
  const HID_KEY_BUFFER_SIZE := 6
  const MAX_ABSOLUTE_COORDINATE := 32767
  const MAX_ABSOLUTE_BUTTON_MASK := 31
  const MAX_RELATIVE_MOUSE_DELTA := 127

  datatype EncodeError = InvalidType | TooManyKeys | XOutOfRange | YOutOfRange | ButtonsOutOfRange | DeltaOutOfRange

  type Encoded = Result<seq<byte>, EncodeError>

  datatype Message = Message(msgType: byte, payload: seq<byte>)

  function Marshal(m: Message): Encoded {
    if m.msgType == 0 then Failure(InvalidType) else Success([m.msgType] + m.payload)
  }

  function Unmarshal(data: seq<byte>): Option<Message> {
    if |data| < 1 then None else Some(Message(data[0], data[1..]))
  }

  /** Marshal and Unmarshal undo each other; type 0 is the one message refused. */
  lemma MarshalRoundTrip(m: Message)
    ensures Marshal(m).Success? <==> m.msgType != 0
    ensures Marshal(m).Success? ==> Unmarshal(Marshal(m).value) == Some(m)
  {
    if m.msgType != 0 {
      assert ([m.msgType] + m.payload)[1..] == m.payload;
    }
  }

  // --- encoders ---------------------------------------------------------------

  function EncodeHandshake(): Encoded {
    Marshal(Message(TYPE_HANDSHAKE, [PROTOCOL_VERSION]))
  }

  function EncodeKeyboardReport(modifier: byte, keys: seq<byte>): Encoded {
    if |keys| > HID_KEY_BUFFER_SIZE then Failure(TooManyKeys)
    else Marshal(Message(TYPE_KEYBOARD_REPORT, [modifier] + keys))
  }

  function PutUint32(v: int): (bytes: seq<byte>)
    requires 0 <= v < 0x1_0000_0000
    ensures |bytes| == 4
  {
    [v / 0x100_0000, (v / 0x1_0000) % 256, (v / 0x100) % 256, v % 256]
  }

  function Uint32(bytes: seq<byte>): int
    requires |bytes| == 4
  {
    0x100_0000 * bytes[0] as int + 0x1_0000 * bytes[1] as int + 0x100 * bytes[2] as int + bytes[3] as int
  }

  function EncodePointerReport(x: int, y: int, buttons: byte): Encoded {
    if x < 0 || x > MAX_ABSOLUTE_COORDINATE then Failure(XOutOfRange)
    else if y < 0 || y > MAX_ABSOLUTE_COORDINATE then Failure(YOutOfRange)
    else if buttons > MAX_ABSOLUTE_BUTTON_MASK then Failure(ButtonsOutOfRange)
    else Marshal(Message(TYPE_POINTER_REPORT, PutUint32(x) + PutUint32(y) + [buttons]))
  }

  type int8 = d: int | -128 <= d < 128

  /** Go's byte(dx): two's complement. */
  function ToByte(d: int8): byte { d % 256 }

  function EncodeMouseReport(dx: int8, dy: int8, buttons: byte): Encoded {
    if dx < -MAX_RELATIVE_MOUSE_DELTA || dy < -MAX_RELATIVE_MOUSE_DELTA then Failure(DeltaOutOfRange)
    else Marshal(Message(TYPE_MOUSE_REPORT, [ToByte(dx), ToByte(dy), buttons]))
  }

  const NO_KEYS: seq<byte> := [0, 0, 0, 0, 0, 0]

  // --- reports ----------------------------------------------------------------

  datatype Report =
    | Handshake
    | Keyboard(modifier: byte, keys: seq<byte>)
    | Pointer(x: int, y: int, buttons: byte)
    | Mouse(dx: int8, dy: int8, relButtons: byte)

  function Encode(r: Report): Encoded {
    match r
    case Handshake => EncodeHandshake()
    case Keyboard(modifier, keys) => EncodeKeyboardReport(modifier, keys)
    case Pointer(x, y, buttons) => EncodePointerReport(x, y, buttons)
    case Mouse(dx, dy, buttons) => EncodeMouseReport(dx, dy, buttons)
  }

  predicate InRange(x: int, y: int) {
    0 <= x <= MAX_ABSOLUTE_COORDINATE && 0 <= y <= MAX_ABSOLUTE_COORDINATE
  }

  predicate Encodable(r: Report) {
    match r
    case Handshake => true
    case Keyboard(_, keys) => |keys| <= HID_KEY_BUFFER_SIZE
    case Pointer(x, y, buttons) => InRange(x, y) && buttons <= MAX_ABSOLUTE_BUTTON_MASK
    case Mouse(dx, dy, _) => dx >= -MAX_RELATIVE_MOUSE_DELTA && dy >= -MAX_RELATIVE_MOUSE_DELTA
  }

  /** Wire length of a report. */
  function Size(r: Report): (n: nat)
    ensures 2 <= n
  {
    match r
    case Handshake => 2
    case Keyboard(_, keys) => 2 + |keys|
    case Pointer(_, _, _) => 10
    case Mouse(_, _, _) => 4
  }

  const RELEASE_ALL_KEYBOARD := Keyboard(0, NO_KEYS)
  const RELEASE_ALL_MOUSE := Mouse(0, 0, 0)

  // --- the device -------------------------------------------------------------

  /** KeydownState and IsReleaseAll: a zero modifier and an all-zero key buffer. */
  datatype KeydownState = KeydownState(modifier: byte, keys: seq<byte>) {
    predicate IsReleaseAll() {
      modifier == 0 && forall i | 0 <= i < |keys| :: keys[i] == 0
    }
  }

  datatype Device = Device(keyboard: KeydownState, x: int, y: int, absButtons: byte, relButtons: byte) {
    predicate Neutral() {
      keyboard.IsReleaseAll() && absButtons == 0 && relButtons == 0
    }
  }

  const POWER_ON := Device(KeydownState(0, []), 0, 0, 0, 0)

  /** The device's reading of one raw frame; anything it does not understand is ignored. */
  function Receive(d: Device, frame: seq<byte>): Device {
    match Unmarshal(frame)
    case None => d
    case Some(Message(t, p)) =>
      if t == TYPE_KEYBOARD_REPORT && |p| >= 1 then d.(keyboard := KeydownState(p[0], p[1..]))
      else if t == TYPE_POINTER_REPORT && |p| == 9 then
        d.(x := Uint32(p[0..4]), y := Uint32(p[4..8]), absButtons := p[8])
      else if t == TYPE_MOUSE_REPORT && |p| == 3 then d.(relButtons := p[2])
      else d
  }

  /** The same, on reports. */
  function Apply(d: Device, r: Report): Device {
    match r
    case Handshake => d
    case Keyboard(modifier, keys) => d.(keyboard := KeydownState(modifier, keys))
    case Pointer(x, y, buttons) => d.(x := x, y := y, absButtons := buttons)
    case Mouse(_, _, buttons) => d.(relButtons := buttons)
  }

  lemma BigEndianRoundTrip(v: int)
    requires 0 <= v < 0x1_0000_0000
    ensures Uint32(PutUint32(v)) == v
  {
    var a, b, c, d := v / 0x100_0000, (v / 0x1_0000) % 256, (v / 0x100) % 256, v % 256;
    assert v == 256 * (v / 0x100) + d;
    assert v / 0x100 == 256 * (v / 0x1_0000) + c;
    assert v / 0x1_0000 == 256 * a + b;
    assert PutUint32(v) == [a, b, c, d];
  }

  lemma SmallCoordinate(v: int)
    requires 0 <= v <= 32767
    ensures PutUint32(v) == [0, 0, v / 256, v % 256]
  {
  }

  /** An encoder succeeds exactly on the reports its range checks admit; what it
      writes has the stated length, and the device decodes it to that report. */
  lemma EncodeReachesDevice(r: Report, d: Device)
    ensures Encode(r).Success? <==> Encodable(r)
    ensures Encode(r).Success? ==> |Encode(r).value| == Size(r)
    ensures Encode(r).Success? ==> Receive(d, Encode(r).value) == Apply(d, r)
  {
    if Encodable(r) {
      match r
      case Handshake =>
        MarshalRoundTrip(Message(TYPE_HANDSHAKE, [PROTOCOL_VERSION]));
      case Keyboard(modifier, keys) =>
        MarshalRoundTrip(Message(TYPE_KEYBOARD_REPORT, [modifier] + keys));
        assert ([modifier] + keys)[1..] == keys;
      case Pointer(x, y, buttons) =>
        var p := PutUint32(x) + PutUint32(y) + [buttons];
        MarshalRoundTrip(Message(TYPE_POINTER_REPORT, p));
        assert p[0..4] == PutUint32(x) && p[4..8] == PutUint32(y);
        BigEndianRoundTrip(x);
        BigEndianRoundTrip(y);
      case Mouse(dx, dy, buttons) =>
        MarshalRoundTrip(Message(TYPE_MOUSE_REPORT, [ToByte(dx), ToByte(dy), buttons]));
    }
  }

  function TwosComplement(d: int8): byte { if d < 0 then d + 256 else d }

  /** The frames byte for byte: the type, then the payload, coordinates as four bytes each,
      most significant first. */
  lemma WireFormat(modifier: byte, keys: seq<byte>, x: int, y: int, dx: int8, dy: int8, buttons: byte)
    ensures Encode(Handshake) == Success([1, 1])
    ensures |keys| <= 6 ==> Encode(Keyboard(modifier, keys)) == Success([2, modifier] + keys)
    ensures 0 <= x <= 32767 && 0 <= y <= 32767 && buttons <= 31 ==>
              Encode(Pointer(x, y, buttons)) == Success([3, 0, 0, x / 256, x % 256, 0, 0, y / 256, y % 256, buttons])
    ensures dx != -128 && dy != -128 ==>
              Encode(Mouse(dx, dy, buttons)) == Success([6, TwosComplement(dx), TwosComplement(dy), buttons])
  {
    assert [TYPE_HANDSHAKE] + [PROTOCOL_VERSION] == [1, 1];
    assert [TYPE_KEYBOARD_REPORT] + ([modifier] + keys) == [2, modifier] + keys;
    assert [TYPE_MOUSE_REPORT] + [ToByte(dx), ToByte(dy), buttons] == [6, ToByte(dx), ToByte(dy), buttons];
    assert ToByte(dx) == TwosComplement(dx) && ToByte(dy) == TwosComplement(dy);
    if InRange(x, y) {
      SmallCoordinate(x);
      SmallCoordinate(y);
      assert [TYPE_POINTER_REPORT] + (PutUint32(x) + PutUint32(y) + [buttons])
          == [3, 0, 0, x / 256, x % 256, 0, 0, y / 256, y % 256, buttons];
    }
  }

  /** Go's int8(b), reading a two's complement byte. */
  function FromByte(b: byte): int8 { if b < 128 then b else b - 256 }

  /** A relative report carries its deltas in order, signs included, on the bytes the
      host reads as x and y movement. */
  lemma DeltasSurvive(dx: int8, dy: int8, buttons: byte)
    requires Encodable(Mouse(dx, dy, buttons))
    ensures var p := Unmarshal(Encode(Mouse(dx, dy, buttons)).value).value.payload;
            |p| == 3 && FromByte(p[0]) == dx && FromByte(p[1]) == dy && p[2] == buttons
  {
    MarshalRoundTrip(Message(TYPE_MOUSE_REPORT, [ToByte(dx), ToByte(dy), buttons]));
  }

  /** handleMessage's test for the device's echo. */
  predicate IsEcho(frame: seq<byte>) {
    match Unmarshal(frame)
    case None => false
    case Some(Message(t, p)) => t == TYPE_HANDSHAKE && |p| == 1 && p[0] == PROTOCOL_VERSION
  }

  /** The handshake sent is the only frame that counts as its echo. */
  lemma HandshakeEcho(frame: seq<byte>)
    ensures IsEcho(frame) <==> Success(frame) == EncodeHandshake()
  {
    if IsEcho(frame) { assert frame[1..] == [PROTOCOL_VERSION] && frame == [frame[0]] + frame[1..]; }
    MarshalRoundTrip(Message(TYPE_HANDSHAKE, [PROTOCOL_VERSION]));
  }
}
