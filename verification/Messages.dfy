/** Inbound messages: how bytes become a message, and how its fields are read. */
module Messages {
  import opened Wrappers
  import opened MachineInts
  import opened Decimal
  import opened Delimited
  import opened MessageKinds
  import opened Errors

  const PROTOBUF_MSG_ID: int := 200
  const ERROR_TIME: int := 194
  const PROTOBUF: int := 201
  const PROTOBUF_SCAN_DATA: Int32 := 210
  const UPDATE_CONFIG: Int32 := 221

  const NUL: char := '\0'

  /** A message: its fields, and its raw payload when that is protobuf. */
  datatype Message = Message(fields: seq<string>, serverVersion: Int32, isProtobuf: bool, rawBytes: Option<Bytes>)

  // ---- constructors ----

  function FromText(text: string): Message {
    Message(SplitTerminator(text, NUL), 0, false, None)
  }

  function FromProtobuf(id: int, raw: Bytes, serverVersion: Int32): Message {
    Message([PrintInt(id)], serverVersion, true, Some(raw))
  }

  function FromBinaryText(id: int, text: string, serverVersion: Int32): Message {
    Message([PrintInt(id)] + SplitTerminator(text, NUL), serverVersion, false, None)
  }

  function EncodeText(message: Message): string {
    Terminate(message.fields, NUL)
  }

  /** Reads a frame's body. `decodeText` is the lossy reading of bytes as text. */
  function ParseRawMessage(decodeText: Bytes -> string, body: Bytes, serverVersion: Int32): Message {
    if serverVersion >= PROTOBUF && |body| >= 4 then
      var id := BytesToInt32(body[..4]);
      if id > PROTOBUF_MSG_ID then FromProtobuf(id - PROTOBUF_MSG_ID, body[4..], serverVersion)
      else FromBinaryText(id, decodeText(body[4..]), serverVersion)
    else
      FromText(decodeText(body)).(serverVersion := serverVersion)
  }

  /** The body of an outbound protobuf message; the id's sum wraps. */
  function ProtobufBody(id: Int32, payload: Bytes): Bytes {
    Int32ToBytes(WrapInt32(id + PROTOBUF_MSG_ID)) + payload
  }

  /** The id's four bytes read back as the id plus 200, and all behind them is payload. */
  method EncodeProtobufMessage(id: Int32, payload: Bytes) returns (body: Bytes)
    ensures |body| == 4 + |payload| && body[4..] == payload
    ensures BytesToInt32(body[..4]) == WrapInt32(id + 200)
    ensures body == ProtobufBody(id, payload)
  {
    var wireId := WrapInt32(id + PROTOBUF_MSG_ID);
    body := [];
    body := body + Int32ToBytes(wireId);
    body := body + payload;
    Int32BytesInverse(wireId);
    assert body[..4] == Int32ToBytes(wireId);
  }

  // ---- accessors ----

  function MessageKind(message: Message): Kind {
    if message.fields == [] then NotValid
    else
      var id: int := match ParseInt32(message.fields[0]) case Some(n) => n case None => -1;
      KindOfId(id)
  }

  /** The field at `i` as an integer, for a reader whose cursor is `i`. */
  function IntAt(fields: seq<string>, i: nat): Result<Int32, Error> {
    if i >= |fields| then Failure(Parse(i, [], EndOfMessage(IntField)))
    else
      match ParseInt32(fields[i])
      case Some(n) => Success(n)
      case None => Failure(Parse(i + 1, fields[i], NotAnInteger))
  }

  function StringAt(fields: seq<string>, i: nat): Result<string, Error> {
    if i >= |fields| then Failure(Parse(i, [], EndOfMessage(StringField))) else Success(fields[i])
  }

  /** A message being read, with its cursor. */
  class ResponseMessage {
    const body: Message
    var i: nat

    constructor (body: Message)
      ensures this.body == body && i == 0
    {
      this.body := body;
      i := 0;
    }

    method Skip()
      modifies this
      ensures i == old(i) + 1
    {
      i := i + 1;
    }

    method NextInt() returns (r: Result<Int32, Error>)
      modifies this
      ensures r == IntAt(body.fields, old(i))
      ensures old(i) >= |body.fields| ==> r == Failure(Parse(old(i), [], EndOfMessage(IntField)))
      ensures old(i) < |body.fields| ==>
                match ParseInt32(body.fields[old(i)])
                case Some(n) => r == Success(n)
                case None => r == Failure(Parse(old(i) + 1, body.fields[old(i)], NotAnInteger))
      ensures i == if old(i) < |body.fields| then old(i) + 1 else old(i)
    {
      if i >= |body.fields| {
        return Failure(Parse(i, [], EndOfMessage(IntField)));
      }
      var field := body.fields[i];
      i := i + 1;
      match ParseInt32(field) {
        case Some(n) => return Success(n);
        case None => return Failure(Parse(i, field, NotAnInteger));
      }
    }

    method NextString() returns (r: Result<string, Error>)
      modifies this
      ensures r == StringAt(body.fields, old(i))
      ensures old(i) >= |body.fields| ==> r == Failure(Parse(old(i), [], EndOfMessage(StringField)))
      ensures old(i) < |body.fields| ==> r == Success(body.fields[old(i)])
      ensures i == if old(i) < |body.fields| then old(i) + 1 else old(i)
    {
      if i >= |body.fields| {
        return Failure(Parse(i, [], EndOfMessage(StringField)));
      }
      var field := body.fields[i];
      i := i + 1;
      return Success(field);
    }
  }

  // ---- error messages ----

  /** The old error layout has a version field in front of the request id. */
  function ErrorOffset(serverVersion: Int32): nat {
    if serverVersion >= ERROR_TIME then 0 else 1
  }

  function PeekInt(message: Message, i: nat): Option<Int32> {
    if i >= |message.fields| then None else ParseInt32(message.fields[i])
  }

  function PeekLong(message: Message, i: nat): Option<int> {
    if i >= |message.fields| then None
    else ParseInt(message.fields[i], -0x8000_0000_0000_0000, 0x7FFF_FFFF_FFFF_FFFF)
  }

  function ErrorRequestId(message: Message): Int32 {
    match PeekInt(message, 1 + ErrorOffset(message.serverVersion))
    case Some(n) => n
    case None => -1
  }

  function ErrorCode(message: Message): Int32 {
    match PeekInt(message, 2 + ErrorOffset(message.serverVersion))
    case Some(n) => n
    case None => 0
  }

  function ErrorText(message: Message): string {
    var i := 3 + ErrorOffset(message.serverVersion);
    if i >= |message.fields| then "Unknown error" else message.fields[i]
  }

  function RejectJson(message: Message): string {
    if message.serverVersion < ERROR_TIME || 4 >= |message.fields| then [] else message.fields[4]
  }

  /** The error's time, when the layout has one; `instantOfMillis` is partial. */
  function ErrorTime(message: Message, instantOfMillis: int -> Option<Instant>): Option<Instant> {
    if message.serverVersion < ERROR_TIME then None
    else
      match PeekLong(message, 5)
      case Some(millis) => instantOfMillis(millis)
      case None => None
  }
}
