/** What the wire forms of a message have in common, and when they read back. */
module CodecTheorems {
  import opened Wrappers
  import opened MachineInts
  import opened Decimal
  import opened Delimited
  import opened MessageKinds
  import opened Messages
  import opened Errors
  import opened Ascii

  /** Reading bytes as text leaves ASCII bytes alone, one character each. Every
      lossy UTF-8 reader does: an ASCII byte is never part of a longer sequence. */
  ghost predicate ReadsAscii(decodeText: Bytes -> string) {
    && decodeText([]) == []
    && forall b: Byte, rest: Bytes :: b < 128 ==> decodeText([b] + rest) == [b as char] + decodeText(rest)
  }

  /** The condition can be met: byte-by-byte reading meets it. */
  lemma AsciiTextReadsAscii()
    ensures ReadsAscii(AsciiText)
  {
    forall b: Byte, rest: Bytes | b < 128
      ensures AsciiText([b] + rest) == [b as char] + AsciiText(rest)
    {
    }
  }

  lemma {:induction false} AsciiPrefixRead(decodeText: Bytes -> string, s: string, rest: Bytes)
    requires ReadsAscii(decodeText)
    requires IsAscii(s)
    ensures decodeText(TextBytes(s) + rest) == s + decodeText(rest)
  {
    if s == [] {
      assert TextBytes(s) + rest == rest;
    } else {
      AsciiPrefixRead(decodeText, s[1..], rest);
      assert TextBytes(s) + rest == [s[0] as int] + (TextBytes(s[1..]) + rest);
      assert s == [s[0]] + s[1..];
    }
  }

  /** A protobuf body reads back as its id and payload exactly when the id is
      positive and its sum with 200 does not wrap; otherwise it reads as text. */
  lemma ProtobufBodyReadsBackIff(decodeText: Bytes -> string, id: Int32, payload: Bytes, serverVersion: Int32)
    requires serverVersion >= 201
    ensures var m := ParseRawMessage(decodeText, ProtobufBody(id, payload), serverVersion);
            && m.isProtobuf == (1 <= id <= 0x7FFF_FFFF - 200)
            && m.serverVersion == serverVersion
            && (m.isProtobuf ==> m.rawBytes == Some(payload) && MessageKind(m) == KindOfId(id))
  {
    var body := ProtobufBody(id, payload);
    var wrapped := WrapInt32(id + 200);
    assert body[..4] == Int32ToBytes(wrapped);
    assert body[4..] == payload;
    Int32BytesInverse(wrapped);
    if id > 0x7FFF_FFFF - 200 {
      assert wrapped == id + 200 - TWO_POW_32;
    }
    ParsePrintInt32(id);
  }

  /** A message whose first field is missing or no number is of no known kind. */
  lemma KindlessMessage(m: Message)
    requires m.fields == [] || ParseInt32(m.fields[0]) == None
    ensures MessageKind(m) == NotValid
  {
  }

  /** The binary-id text form, for servers that send binary ids. */
  function BinaryTextBody(id: Int32, payload: Bytes): Bytes {
    Int32ToBytes(id) + payload
  }

  /** The legacy text form: the id in digits, a NUL, the payload. */
  function LegacyTextBody(id: Int32, payload: Bytes): Bytes {
    TextBytes(PrintInt(id)) + [0] + payload
  }

  lemma SplitTerminatorAfter(head: string, tail: string)
    requires NUL !in head
    ensures SplitTerminator(head + [NUL] + tail, NUL) == [head] + SplitTerminator(tail, NUL)
  {
    SplitConcat(head, tail, NUL);
    SplitFree(head, NUL);
    var pieces := Split(tail, NUL);
    assert ([head] + pieces)[..|pieces|] == [head] + pieces[..|pieces| - 1];
  }

  lemma LegacyTextFields(decodeText: Bytes -> string, id: Int32, payload: Bytes)
    requires ReadsAscii(decodeText)
    ensures SplitTerminator(decodeText(LegacyTextBody(id, payload)), NUL)
         == [PrintInt(id)] + SplitTerminator(decodeText(payload), NUL)
  {
    AsciiPrefixRead(decodeText, PrintInt(id), [0] + payload);
    assert LegacyTextBody(id, payload) == TextBytes(PrintInt(id)) + ([0] + payload);
    assert decodeText([0] + payload) == [NUL] + decodeText(payload);
    assert PrintInt(id) + ([NUL] + decodeText(payload)) == PrintInt(id) + [NUL] + decodeText(payload);
    SplitTerminatorAfter(PrintInt(id), decodeText(payload));
  }

  lemma BinaryTextReads(decodeText: Bytes -> string, id: Int32, payload: Bytes, serverVersion: Int32)
    requires serverVersion >= 201
    ensures ParseRawMessage(decodeText, BinaryTextBody(id, payload), serverVersion)
         == if id > 200 then FromProtobuf(id - 200, payload, serverVersion)
            else FromBinaryText(id, decodeText(payload), serverVersion)
  {
    var body := BinaryTextBody(id, payload);
    assert body[..4] == Int32ToBytes(id) && body[4..] == payload;
    Int32BytesInverse(id);
  }

  lemma LegacyTextReads(decodeText: Bytes -> string, id: Int32, payload: Bytes, serverVersion: Int32)
    requires ReadsAscii(decodeText)
    requires serverVersion < 201
    ensures ParseRawMessage(decodeText, LegacyTextBody(id, payload), serverVersion)
         == FromBinaryText(id, decodeText(payload), serverVersion)
  {
    LegacyTextFields(decodeText, id, payload);
  }

  lemma PrintedKind(message: Message, id: Int32)
    requires message.fields != [] && message.fields[0] == PrintInt(id)
    ensures MessageKind(message) == KindOfId(id)
  {
    ParsePrintInt32(id);
  }

  lemma PrintIntInjective(a: Int32, b: Int32)
    requires a != b
    ensures PrintInt(a) != PrintInt(b)
  {
    ParsePrintInt32(a);
    ParsePrintInt32(b);
  }

  lemma ProtobufFieldsDiffer(id: Int32, payload: Bytes, text: string, a: Int32, b: Int32)
    requires id > 200
    ensures FromProtobuf(id - 200, payload, a).fields != FromBinaryText(id, text, b).fields
  {
    PrintIntInjective(id, id - 200);
    assert FromProtobuf(id - 200, payload, a).fields[0] != FromBinaryText(id, text, b).fields[0];
  }

  /** The two text forms of a message decode to the same fields exactly when the
      id is at most 200, and the id then survives as the message's kind. */
  lemma TextFormsAgreeIff(decodeText: Bytes -> string, id: Int32, payload: Bytes, binary: Int32, legacy: Int32)
    requires ReadsAscii(decodeText)
    requires legacy < 201 <= binary
    ensures var b := ParseRawMessage(decodeText, BinaryTextBody(id, payload), binary);
            var l := ParseRawMessage(decodeText, LegacyTextBody(id, payload), legacy);
            && (b.fields == l.fields <==> id <= 200)
            && (id <= 200 ==> MessageKind(b) == KindOfId(id))
            && MessageKind(l) == KindOfId(id)
  {
    var b := ParseRawMessage(decodeText, BinaryTextBody(id, payload), binary);
    var l := ParseRawMessage(decodeText, LegacyTextBody(id, payload), legacy);
    BinaryTextReads(decodeText, id, payload, binary);
    LegacyTextReads(decodeText, id, payload, legacy);
    PrintedKind(l, id);
    if id > 200 {
      ProtobufFieldsDiffer(id, payload, decodeText(payload), binary, legacy);
    } else {
      PrintedKind(b, id);
    }
  }

  /** Printing a message and reading it restores the fields exactly when there is
      a field and none holds a NUL. */
  lemma EncodedTextReadsBackIff(message: Message)
    ensures FromText(EncodeText(message)).fields == message.fields
       <==> message.fields != [] && Free(message.fields, NUL)
  {
    SplitTerminateIff(message.fields, NUL);
  }

  /** Reading a text and printing it changes nothing but to complete a missing
      terminator, so doing it twice is doing it once. */
  lemma ReadTextPrintsBack(text: string)
    ensures EncodeText(FromText(text)) == if text != [] && text[|text| - 1] == NUL then text else text + [NUL]
    ensures EncodeText(FromText(EncodeText(FromText(text)))) == EncodeText(FromText(text))
  {
    TerminateSplit(text, NUL);
    TerminateSplit(EncodeText(FromText(text)), NUL);
  }

  /** The fields of an error message in the layout with a version field. */
  function OldErrorFields(version: string, requestId: Int32, code: Int32, text: string): seq<string> {
    [PrintInt(4), version, PrintInt(requestId), PrintInt(code), text]
  }

  /** What follows the kind in the layout with a time. */
  function NewErrorTail(requestId: Int32, code: Int32, text: string, json: string, millis: int): seq<string> {
    [PrintInt(requestId), PrintInt(code), text, json, PrintInt(millis)]
  }

  lemma PrintedFieldReads(message: Message, i: nat, n: Int32)
    requires i < |message.fields| && message.fields[i] == PrintInt(n)
    ensures PeekInt(message, i) == Some(n)
    ensures i == 0 ==> MessageKind(message) == KindOfId(n)
  {
    ParsePrintInt32(n);
  }

  /** An error's request id and code read back from where its layout puts them. */
  lemma PrintedErrorReads(message: Message, requestId: Int32, code: Int32)
    requires var o := ErrorOffset(message.serverVersion);
             && |message.fields| > 2 + o
             && message.fields[1 + o] == PrintInt(requestId) && message.fields[2 + o] == PrintInt(code)
    ensures ErrorRequestId(message) == requestId && ErrorCode(message) == code
  {
    PrintedFieldReads(message, 1 + ErrorOffset(message.serverVersion), requestId);
    PrintedFieldReads(message, 2 + ErrorOffset(message.serverVersion), code);
  }

  lemma OldErrorReads(m: Message, version: string, requestId: Int32, code: Int32, text: string,
                      instantOfMillis: int -> Option<Instant>)
    requires m.serverVersion < 194 && m.fields == OldErrorFields(version, requestId, code, text)
    ensures MessageKind(m) == Kind.Error
    ensures ErrorRequestId(m) == requestId && ErrorCode(m) == code && ErrorText(m) == text
    ensures RejectJson(m) == [] && ErrorTime(m, instantOfMillis) == None
  {
    PrintedFieldReads(m, 0, 4);
    PrintedErrorReads(m, requestId, code);
  }

  /** The time reads back when it fits 64 bits; otherwise there is none. */
  lemma NewErrorReads(m: Message, requestId: Int32, code: Int32, text: string, json: string, millis: int,
                      instantOfMillis: int -> Option<Instant>)
    requires m.serverVersion >= 194
    requires m.fields == [PrintInt(4)] + NewErrorTail(requestId, code, text, json, millis)
    ensures MessageKind(m) == Kind.Error
    ensures ErrorRequestId(m) == requestId && ErrorCode(m) == code && ErrorText(m) == text
    ensures RejectJson(m) == json
    ensures ErrorTime(m, instantOfMillis)
         == if -0x8000_0000_0000_0000 <= millis <= 0x7FFF_FFFF_FFFF_FFFF then instantOfMillis(millis) else None
  {
    PrintedFieldReads(m, 0, 4);
    PrintedErrorReads(m, requestId, code);
    PrintedTimeReads(m, millis, instantOfMillis);
  }

  lemma PrintedTimeReads(m: Message, millis: int, instantOfMillis: int -> Option<Instant>)
    requires m.serverVersion >= 194 && |m.fields| > 5 && m.fields[5] == PrintInt(millis)
    ensures ErrorTime(m, instantOfMillis)
         == if -0x8000_0000_0000_0000 <= millis <= 0x7FFF_FFFF_FFFF_FFFF then instantOfMillis(millis) else None
  {
    ParsePrintInt(millis, -0x8000_0000_0000_0000, 0x7FFF_FFFF_FFFF_FFFF);
  }

  /** What an error message that ends too soon is read as, in either layout. */
  lemma MissingErrorFields(m: Message, instantOfMillis: int -> Option<Instant>)
    ensures |m.fields| <= (if m.serverVersion >= 194 then 1 else 2) ==> ErrorRequestId(m) == -1
    ensures |m.fields| <= (if m.serverVersion >= 194 then 2 else 3) ==> ErrorCode(m) == 0
    ensures |m.fields| <= (if m.serverVersion >= 194 then 3 else 4) ==> ErrorText(m) == "Unknown error"
    ensures |m.fields| <= 4 ==> RejectJson(m) == []
    ensures |m.fields| <= 5 ==> ErrorTime(m, instantOfMillis) == None
  {
  }
}
