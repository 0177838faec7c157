/** Notices and errors, as far as the session and the codec produce them. */
module Errors {
  import opened Wrappers
  import opened MachineInts
  import opened MessageKinds

  /** A moment in time, in nanoseconds since the Unix epoch. */
  type Instant = int

  /** A time zone, by its name. */
  type Zone = string

  /** The text of a notice: the gateway's own, or one the client composes. */
  datatype NoticeText =
    | WireText(text: string)
    | DecodeFailureText(kind: Kind, cause: string)
    | UnknownFrameText(kind: Kind)

  datatype Notice = Notice(code: Int32, text: NoticeText, errorTime: Option<Instant>, rejectJson: string)

  const CLIENT_ID_IN_USE_CODE: Int32 := 326
  const HANDSHAKE_UNKNOWN_FRAME_CODE: Int32 := -3
  const HANDSHAKE_DECODE_FAILURE_CODE: Int32 := -4

  function Synthesized(code: Int32, text: NoticeText): Notice {
    Notice(code, text, None, [])
  }

  datatype IoKind = UnexpectedEof | OtherIo

  /** What a field was read as when the message ended. */
  datatype FieldLabel = IntField | StringField

  datatype ParseReason = EndOfMessage(expected: FieldLabel) | NotAnInteger

  datatype Error =
    | Io(kind: IoKind, detail: string)
    | Parse(index: nat, field: string, reason: ParseReason)
    | ServerVersion(required: Int32, actual: Int32)
    | ConnectionFailed
    | ConnectionRejected(cause: string)
    | UnsupportedTimeZone(name: string)
    | ConnectionReset
    | Closed
    | NoticeError(notice: Notice)
    | ProtobufDecode(detail: string)
    | Unmodelled(detail: string)
}
