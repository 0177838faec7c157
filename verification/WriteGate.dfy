/** What the asynchronous transport tells a write gate about an outbound message. */
module WriteGate {
  import opened Wrappers
  import opened MachineInts
  import opened Ascii
  import opened Decimal
  import opened Delimited
  import opened MessageKinds
  import opened Messages

  datatype OutgoingMeta = OutgoingMeta(
    message: Option<OutgoingId>,
    orderId: Option<Int32>,
    requestId: Option<Int32>,
    handshake: bool)

  const PLACE_ORDER: OutgoingId := 3
  const CANCEL_ORDER: OutgoingId := 4

  /** The order id in the payload of a protobuf placement or cancel, if it has one. */
  type OrderIdDecoder = (OutgoingId, Bytes) -> Option<Int32>

  /** The id in a four-byte prefix whose first byte is zero. */
  function PrefixId(body: Bytes): Option<Int32> {
    if |body| < 4 || body[0] != 0 then None else Some(BytesToInt32(body[..4]))
  }

  /** The opcode of an outbound body: protobuf, binary legacy or text. */
  function MessageOf(body: Bytes): Option<OutgoingId> {
    var id: Option<int> :=
      match PrefixId(body)
      case Some(raw) =>
        if raw > PROTOBUF_MSG_ID then Some(raw - PROTOBUF_MSG_ID)
        else if raw > 0 then Some(raw)
        else TextId(body)
      case None => TextId(body);
    match id
    case Some(n) => ParseOutgoing(PrintInt(n))
    case None => None
  }

  /** The id in digits before the first NUL. Digits are ASCII, so reading the
      bytes one by one finds the id whenever reading them as UTF-8 does. */
  function TextId(body: Bytes): Option<int> {
    match ParseInt32(AsciiText(Split(body, 0)[0]))
    case Some(n) => Some(n)
    case None => None
  }

  /** The payload of a protobuf body. */
  function PayloadOf(body: Bytes): Option<Bytes> {
    match PrefixId(body)
    case Some(raw) => if raw > PROTOBUF_MSG_ID then Some(body[4..]) else None
    case None => None
  }

  function OrderIdOf(decode: OrderIdDecoder, body: Bytes): Option<Int32> {
    match MessageOf(body)
    case None => None
    case Some(message) =>
      if message != PLACE_ORDER && message != CANCEL_ORDER then None
      else
        match PayloadOf(body)
        case None => None
        case Some(payload) => decode(message, payload)
  }

  function Describe(decode: OrderIdDecoder, body: Bytes, requestId: Option<Int32>, handshake: bool): OutgoingMeta {
    OutgoingMeta(MessageOf(body), OrderIdOf(decode, body), requestId, handshake)
  }

  /** A gate is told the order id of exactly the protobuf placements and cancels. */
  lemma OrderIsRecognised(decode: OrderIdDecoder, message: OutgoingId, payload: Bytes)
    ensures OrderIdOf(decode, ProtobufBody(message, payload))
         == if message == 3 || message == 4 then decode(message, payload) else None
  {
    ProtobufIsRecognised(message, payload);
    var body := ProtobufBody(message, payload);
    assert body[..4] == Int32ToBytes(message + PROTOBUF_MSG_ID) && body[4..] == payload;
    Int32BytesInverse(message + PROTOBUF_MSG_ID);
  }

  /** A gate is told the opcode of every protobuf message, whatever its payload. */
  lemma ProtobufIsRecognised(message: OutgoingId, payload: Bytes)
    ensures MessageOf(ProtobufBody(message, payload)) == Some(message)
  {
    var body := ProtobufBody(message, payload);
    assert IsOutgoingId(message);
    assert body[..4] == Int32ToBytes(message + PROTOBUF_MSG_ID);
    Int32BytesInverse(message + PROTOBUF_MSG_ID);
    ParsePrintOutgoing(message);
  }

  /** Likewise for a legacy message with a binary id. */
  lemma BinaryLegacyIsRecognised(message: OutgoingId, payload: Bytes)
    ensures MessageOf(Int32ToBytes(message) + payload) == Some(message)
  {
    var body := Int32ToBytes(message) + payload;
    assert IsOutgoingId(message);
    assert body[..4] == Int32ToBytes(message);
    Int32BytesInverse(message);
    ParsePrintOutgoing(message);
  }

  /** And for a text message, whose id is its digits before the first NUL. */
  lemma TextIsRecognised(message: OutgoingId, payload: Bytes)
    ensures MessageOf(TextBytes(PrintInt(message)) + [0] + payload) == Some(message)
  {
    var digits := TextBytes(PrintInt(message));
    var body := digits + [0] + payload;
    assert body[0] == digits[0] && digits[0] != 0;
    SplitConcat(digits, payload, 0);
    SplitFree(digits, 0);
    assert AsciiText(digits) == PrintInt(message);
    ParsePrintInt32(message);
    ParsePrintOutgoing(message);
  }
}
