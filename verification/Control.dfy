/** The SETUP packet: `Request::parse` of src/control.rs, and its encoder in src/test_class.rs. */
module Control {
  import opened UsbTypes

  datatype RequestType = Standard | Class | Vendor | ReservedType
  datatype Recipient = Device | Interface | Endpoint | Other | ReservedRecipient

  datatype Request = Request(
    direction: UsbDirection,
    requestType: RequestType,
    recipient: Recipient,
    request: byte,
    value: u16,
    index: u16,
    length: u16)

  const GET_STATUS: byte := 0
  const CLEAR_FEATURE: byte := 1
  const SET_FEATURE: byte := 3
  const SET_ADDRESS: byte := 5
  const GET_DESCRIPTOR: byte := 6
  const GET_CONFIGURATION: byte := 8
  const SET_CONFIGURATION: byte := 9
  const GET_INTERFACE: byte := 10
  const SET_INTERFACE: byte := 11
  const FEATURE_ENDPOINT_HALT: u16 := 0
  const FEATURE_DEVICE_REMOTE_WAKEUP: u16 := 1

  /** The discriminants `repr` gives the Rust enums; `mem::transmute` inverts them. */
  function DirectionBits(d: UsbDirection): byte {
    match d
    case Out => 0x00
    case In => 0x80
  }

  function TypeBits(t: RequestType): byte {
    match t
    case Standard => 0
    case Class => 1
    case Vendor => 2
    case ReservedType => 3
  }

  function RecipientBits(r: Recipient): byte {
    match r
    case Device => 0
    case Interface => 1
    case Endpoint => 2
    case Other => 3
    case ReservedRecipient => 4
  }

  function TypeOfBits(b: int): RequestType {
    if b == 0 then Standard else if b == 1 then Class else if b == 2 then Vendor else ReservedType
  }

  function RecipientOfBits(b: int): Recipient {
    if b == 0 then Device
    else if b == 1 then Interface
    else if b == 2 then Endpoint
    else if b == 3 then Other
    else ReservedRecipient
  }

  /**
   * Byte 0 of the packet. `rt & 0x80`, `(rt >> 5) & 0b11` and `rt & 0b11111` are written as
   * arithmetic on 0..255; MasksOfByte shows that each is what the mask and shift compute.
   */
  function DirectionOf(rt: byte): UsbDirection {
    if rt < 128 then Out else In
  }

  function TypeOf(rt: byte): RequestType {
    TypeOfBits(rt / 32 % 4)
  }

  function RecipientOf(rt: byte): Recipient {
    RecipientOfBits(rt % 32)
  }

  /** `(buf[k] as u16) | ((buf[k + 1] as u16) << 8)`; see MasksOfWord. */
  function WordAt(buf: seq<byte>, k: nat): u16
    requires k + 1 < |buf|
  {
    (buf[k] as int) + 0x100 * (buf[k + 1] as int)
  }

  function Parse(buf: seq<byte>): Result<Request> {
    if |buf| != 8 then
      Err(ParseError)
    else
      Ok(Request(DirectionOf(buf[0]), TypeOf(buf[0]), RecipientOf(buf[0]), buf[1],
                 WordAt(buf, 2), WordAt(buf, 4), WordAt(buf, 6)))
  }

  /** `direction | request_type << 5 | recipient`; see FieldsOfByte. */
  function TypeByte(d: UsbDirection, t: RequestType, r: Recipient): byte {
    DirectionBits(d) + 32 * TypeBits(t) + RecipientBits(r)
  }

  /** What TestClass stores for REQ_STORE_REQUEST. */
  function Encode(r: Request): (buf: seq<byte>)
    ensures |buf| == 8
  {
    [TypeByte(r.direction, r.requestType, r.recipient), r.request]
    + LittleEndian(r.value) + LittleEndian(r.index) + LittleEndian(r.length)
  }

  /** A SETUP packet on the bus: bmRequestType, bRequest, wValue, wIndex, wLength (section 9.3 of USB 2.0). */
  datatype SetupPacket = SetupPacket(kind: byte, request: byte, value: u16, index: u16, length: u16)
  {
    function Bytes(): (buf: seq<byte>)
      ensures |buf| == 8
    {
      [kind, request, value % 0x100, value / 0x100, index % 0x100, index / 0x100, length % 0x100, length / 0x100]
    }
  }

  function RequestOf(s: SetupPacket): Request {
    Request(DirectionOf(s.kind), TypeOf(s.kind), RecipientOf(s.kind), s.request, s.value, s.index, s.length)
  }

  function DescriptorTypeIndex(r: Request): (byte, byte) {
    (r.value / 0x100, r.value % 0x100)
  }

  /** The source's masks and shifts on a `u8`, against the arithmetic above. */
  lemma MasksOfByte(b: bv8)
    ensures (b & 0x80 == 0) == (b as int < 128)
    ensures ((b >> 5) & 0x3) as int == b as int / 32 % 4
    ensures (b & 0x1f) as int == b as int % 32
  {
  }

  lemma FieldsOfByte(d: bv8, t: bv8, r: bv8)
    requires (d == 0 || d == 0x80) && t <= 3 && r <= 4
    ensures (d | (t << 5) | r) as int == d as int + 32 * (t as int) + r as int
  {
  }

  lemma MasksOfWord(lo: bv16, hi: bv16)
    requires lo < 0x100 && hi < 0x100
    ensures (lo | (hi << 8)) as int == lo as int + 0x100 * (hi as int)
  {
  }

  lemma TypeByteFields(d: UsbDirection, t: RequestType, r: Recipient)
    ensures var rt := TypeByte(d, t, r); DirectionOf(rt) == d && TypeOf(rt) == t && RecipientOf(rt) == r
  {
    var rt := TypeByte(d, t, r);
    assert rt % 32 == RecipientBits(r);
    assert rt / 32 == (if d.In? then 4 else 0) + TypeBits(t);
  }

  lemma FieldsTypeByte(b: byte)
    ensures TypeByte(DirectionOf(b), TypeOf(b), RecipientOf(b)) == b <==> b % 32 <= 4
  {
    var t := b / 32 % 4;
    assert TypeBits(TypeOf(b)) == t;
    assert RecipientBits(RecipientOf(b)) == if b % 32 <= 4 then b % 32 else 4;
    assert b == (if b < 128 then 0 else 128) + 32 * t + b % 32;
  }

  lemma WordOfLittleEndian(buf: seq<byte>, k: nat, x: u16)
    requires k + 2 <= |buf| && buf[k..k + 2] == LittleEndian(x)
    ensures WordAt(buf, k) == x
  {
    assert buf[k] == LittleEndian(x)[0] && buf[k + 1] == LittleEndian(x)[1];
  }

  lemma LittleEndianOfWord(buf: seq<byte>, k: nat)
    requires k + 1 < |buf|
    ensures LittleEndian(WordAt(buf, k)) == [buf[k], buf[k + 1]]
  {
  }

  lemma EncodedFields(r: Request)
    ensures var buf := Encode(r);
            && buf[0] == TypeByte(r.direction, r.requestType, r.recipient) && buf[1] == r.request
            && buf[2..4] == LittleEndian(r.value)
            && buf[4..6] == LittleEndian(r.index)
            && buf[6..8] == LittleEndian(r.length)
  {
    hide TypeByte;
  }

  /** No request is lost in its own encoding. */
  lemma ParseEncode(r: Request)
    ensures Parse(Encode(r)) == Ok(r)
  {
    hide Encode, WordAt, TypeByte, DirectionOf, TypeOf, RecipientOf, LittleEndian;
    var buf := Encode(r);
    EncodedFields(r);
    TypeByteFields(r.direction, r.requestType, r.recipient);
    WordOfLittleEndian(buf, 2, r.value);
    WordOfLittleEndian(buf, 4, r.index);
    WordOfLittleEndian(buf, 6, r.length);
  }

  /**
   * The other direction: re-encoding a parsed packet gives back its bytes exactly when the low
   * five bits of byte 0 name a recipient the enum can tell apart.
   */
  lemma EncodeParse(buf: seq<byte>)
    requires |buf| == 8
    ensures Parse(buf).Ok?
    ensures Encode(Parse(buf).value) == buf <==> buf[0] % 32 <= 4
  {
    FieldsTypeByte(buf[0]);
    LittleEndianOfWord(buf, 2);
    LittleEndianOfWord(buf, 4);
    LittleEndianOfWord(buf, 6);
    var r := Parse(buf).value;
    var rt := TypeByte(r.direction, r.requestType, r.recipient);
    assert Encode(r) == [rt, buf[1]] + [buf[2], buf[3]] + [buf[4], buf[5]] + [buf[6], buf[7]];
    assert Encode(r) == [rt] + buf[1..];
  }

  /** What the pipe makes of a SETUP packet, bit for bit of bmRequestType. */
  lemma ParseBytes(s: SetupPacket)
    ensures Parse(s.Bytes()) == Ok(RequestOf(s))
    ensures var r := RequestOf(s);
            && (r.direction.In? <==> 0x80 <= s.kind)
            && (r.requestType.Standard? <==> s.kind / 0x20 % 4 == 0)
            && (r.requestType.Class? <==> s.kind / 0x20 % 4 == 1)
            && (r.requestType.Vendor? <==> s.kind / 0x20 % 4 == 2)
            && (r.recipient.Device? <==> s.kind % 0x20 == 0)
            && (r.recipient.Interface? <==> s.kind % 0x20 == 1)
            && (r.recipient.Endpoint? <==> s.kind % 0x20 == 2)
            && (r.recipient.Other? <==> s.kind % 0x20 == 3)
  {
    WordOfBytes(s.value);
    WordOfBytes(s.index);
    WordOfBytes(s.length);
  }

  lemma WordOfBytes(x: u16)
    ensures x % 0x100 + 0x100 * (x / 0x100) == x
  {
  }
}
