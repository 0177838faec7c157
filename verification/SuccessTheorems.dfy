/** Connections that succeed: from the bytes a gateway sends to the session they bring about. */
module SuccessTheorems {
  import opened Wrappers
  import opened MachineInts
  import opened Decimal
  import opened Delimited
  import opened MessageKinds
  import opened Errors
  import opened Messages
  import opened CodecTheorems
  import opened Handshake
  import opened SessionModel
  import opened LoopTheorems
  import opened SessionTheorems

  // ---- frames off the wire ----

  /** What the session takes from a message is that of its kind: an id. */
  lemma NextIdMessage(platform: Platform, installed: bool, v: Int32, m: Message, payload: Bytes)
    requires MessageKind(m) == NextValidId && m.isProtobuf && m.rawBytes == Some(payload)
    ensures FrameEffect(platform, installed, v, m)
         == match platform.decodeNextValidId(payload)
            case Success(id) => NextId(id)
            case Failure(e) => Fatal(ProtobufDecode(e))
  {
  }

  lemma AccountsMessage(platform: Platform, installed: bool, v: Int32, m: Message, payload: Bytes)
    requires MessageKind(m) == ManagedAccounts && m.isProtobuf && m.rawBytes == Some(payload)
    ensures FrameEffect(platform, installed, v, m)
         == match platform.decodeManagedAccounts(payload)
            case Success(list) => Accounts(list)
            case Failure(e) => Fatal(ProtobufDecode(e))
  {
  }

  /** From the wire to the session: a protobuf next-id frame gives the decoded id. */
  lemma NextIdFrame(setup: Setup, v: Int32, payload: Bytes)
    requires v >= 201
    ensures Reading(setup, v)(ProtobufBody(9, payload))
         == match setup.platform.decodeNextValidId(payload)
            case Success(id) => NextId(id)
            case Failure(e) => Fatal(ProtobufDecode(e))
  {
    var m := ParseRawMessage(setup.platform.decodeText, ProtobufBody(9, payload), v);
    ProtobufBodyReadsBackIff(setup.platform.decodeText, 9, payload, v);
    NextIdMessage(setup.platform, setup.installed, v, m, payload);
  }

  /** And a managed-accounts frame the decoded list. */
  lemma AccountsFrame(setup: Setup, v: Int32, payload: Bytes)
    requires v >= 201
    ensures Reading(setup, v)(ProtobufBody(15, payload))
         == match setup.platform.decodeManagedAccounts(payload)
            case Success(list) => Accounts(list)
            case Failure(e) => Fatal(ProtobufDecode(e))
  {
    var m := ParseRawMessage(setup.platform.decodeText, ProtobufBody(15, payload), v);
    ProtobufBodyReadsBackIff(setup.platform.decodeText, 15, payload, v);
    AccountsMessage(setup.platform, setup.installed, v, m, payload);
  }

  lemma NextIdFields(platform: Platform, installed: bool, v: Int32, m: Message, version: string, id: Int32)
    requires m.fields == [PrintInt(9), version, PrintInt(id)] && !m.isProtobuf
    ensures FrameEffect(platform, installed, v, m) == NextId(Some(id))
  {
    PrintedFieldReads(m, 0, 9);
    NextIdField(platform, m, id);
  }

  lemma NextIdField(platform: Platform, m: Message, id: Int32)
    requires |m.fields| == 3 && m.fields[2] == PrintInt(id) && !m.isProtobuf
    ensures NextIdEffect(platform, m) == NextId(Some(id))
  {
    ParsePrintInt32(id);
  }

  lemma AccountsFields(platform: Platform, installed: bool, v: Int32, m: Message, version: string, list: string)
    requires m.fields == [PrintInt(15), version, list] && !m.isProtobuf
    ensures FrameEffect(platform, installed, v, m) == Accounts(Some(list))
  {
    ParsePrintInt32(15);
  }

  lemma FieldsRead(id: Int32, pieces: seq<string>, v: Int32)
    requires pieces != [] && Free(pieces, NUL)
    ensures FromBinaryText(id, Terminate(pieces, NUL), v).fields == [PrintInt(id)] + pieces
  {
    SplitTerminateIff(pieces, NUL);
  }

  /** The same frames as text, with a binary id: the id is the field behind the version. */
  lemma NextIdTextFrame(setup: Setup, v: Int32, payload: Bytes, version: string, id: Int32)
    requires v >= 201 && NUL !in version
    requires setup.platform.decodeText(payload) == Terminate([version, PrintInt(id)], NUL)
    ensures Reading(setup, v)(BinaryTextBody(9, payload)) == NextId(Some(id))
  {
    var m := FromBinaryText(9, Terminate([version, PrintInt(id)], NUL), v);
    BinaryTextReads(setup.platform.decodeText, 9, payload, v);
    FieldsRead(9, [version, PrintInt(id)], v);
    NextIdFields(setup.platform, setup.installed, v, m, version, id);
  }

  lemma AccountsTextFrame(setup: Setup, v: Int32, payload: Bytes, version: string, list: string)
    requires v >= 201 && NUL !in version && NUL !in list
    requires setup.platform.decodeText(payload) == Terminate([version, list], NUL)
    ensures Reading(setup, v)(BinaryTextBody(15, payload)) == Accounts(Some(list))
  {
    var m := FromBinaryText(15, Terminate([version, list], NUL), v);
    BinaryTextReads(setup.platform.decodeText, 15, payload, v);
    FieldsRead(15, [version, list], v);
    AccountsFields(setup.platform, setup.installed, v, m, version, list);
  }

  /** The effect of an error with a notice: the end of the handshake exactly when its
      code says that the client id is in use. */
  function NoticeEffect(notice: Notice): Effect {
    if notice.code == 326 then Refused(notice) else Told(notice)
  }

  lemma ErrorMessage(platform: Platform, installed: bool, v: Int32, m: Message)
    requires MessageKind(m) == Kind.Error
    ensures FrameEffect(platform, installed, v, m) == NoticeEffect(NoticeOf(platform, m))
  {
  }

  /** A protobuf error frame gives the notice of its envelope; one that does not decode
      has nothing to tell, and is still delivered. */
  lemma ErrorFrame(setup: Setup, v: Int32, payload: Bytes)
    requires v >= 201
    ensures Reading(setup, v)(ProtobufBody(4, payload))
         == NoticeEffect(match setup.platform.decodeErrorEnvelope(payload)
                         case Some(notice) => notice
                         case None => Notice(0, WireText("Unknown error"), None, []))
  {
    var m := ParseRawMessage(setup.platform.decodeText, ProtobufBody(4, payload), v);
    ProtobufBodyReadsBackIff(setup.platform.decodeText, 4, payload, v);
    ErrorMessage(setup.platform, setup.installed, v, m);
  }

  /** The moment of a printed time: none past 64 bits, or where the time crate has none. */
  function MomentOf(platform: Platform, millis: int): Option<Instant> {
    if -0x8000_0000_0000_0000 <= millis <= 0x7FFF_FFFF_FFFF_FFFF then platform.instantOfMillis(millis) else None
  }

  lemma ErrorFields(platform: Platform, installed: bool, v: Int32, m: Message,
                    requestId: Int32, code: Int32, text: string, json: string, millis: int)
    requires m.serverVersion >= 194 && !m.isProtobuf
    requires m.fields == [PrintInt(4)] + NewErrorTail(requestId, code, text, json, millis)
    ensures FrameEffect(platform, installed, v, m)
         == NoticeEffect(Notice(code, WireText(text), MomentOf(platform, millis), json))
  {
    NewErrorReads(m, requestId, code, text, json, millis, platform.instantOfMillis);
    ErrorMessage(platform, installed, v, m);
  }

  lemma PrintedNumbersAreFree(n: int)
    ensures NUL !in PrintInt(n)
  {
  }

  /** An error frame as text gives the notice with the gateway's code, words and time. */
  lemma ErrorTextFrame(setup: Setup, v: Int32, payload: Bytes,
                       requestId: Int32, code: Int32, text: string, json: string, millis: int)
    requires v >= 201 && NUL !in text && NUL !in json
    requires setup.platform.decodeText(payload) == Terminate(NewErrorTail(requestId, code, text, json, millis), NUL)
    ensures Reading(setup, v)(BinaryTextBody(4, payload))
         == NoticeEffect(Notice(code, WireText(text), MomentOf(setup.platform, millis), json))
  {
    var tail := NewErrorTail(requestId, code, text, json, millis);
    var m := FromBinaryText(4, Terminate(tail, NUL), v);
    BinaryTextReads(setup.platform.decodeText, 4, payload, v);
    PrintedNumbersAreFree(requestId);
    PrintedNumbersAreFree(code);
    PrintedNumbersAreFree(millis);
    FieldsRead(4, tail, v);
    ErrorFields(setup.platform, setup.installed, v, m, requestId, code, text, json, millis);
  }

  // ---- a gateway ----

  /** A gateway that answers with a version and sends two protobuf frames. */
  const REPLY := Message([PrintInt(210), []], 0, false, None)
  const FRAMES := [Frame(ProtobufBody(9, [])), Frame(ProtobufBody(15, []))]

  function Gateway(orderId: Int32): Platform {
    Platform(_ => EncodeText(REPLY), _ => None, (_, _) => None, _ => None,
             _ => Success(Some(orderId)), _ => Success(Some([])), _ => None, (_, _) => Failure([]), (_, _) => None)
  }

  lemma GatewayReplies(orderId: Int32, reply: Bytes)
    ensures Welcomes(Gateway(orderId), [Frame(reply)] + FRAMES)
    ensures ReplyVersion(Gateway(orderId), [Frame(reply)] + FRAMES) == 210
  {
    EncodedTextReadsBackIff(REPLY);
    ParsePrintInt32(210);
    var none: string := [];
    assert TimeParts(none) == None;
  }

  lemma GatewaySettles(orderId: Int32, reading: Bytes -> Effect)
    requires reading(FRAMES[0].body) == NextId(Some(orderId)) && reading(FRAMES[1].body) == Accounts(Some([]))
    ensures EffectsOf(reading, FirstReads(FRAMES, 2)) == [NextId(Some(orderId)), Accounts(Some([]))]
    ensures ShortestStop(EffectsOf(reading, FirstReads(FRAMES, 2)))
  {
    var effects := EffectsOf(reading, FirstReads(FRAMES, 2));
    assert effects == [NextId(Some(orderId)), Accounts(Some([]))];
    assert GivesId(effects[0]) && GivesAccounts(effects[1]);
  }

  lemma LastIdOfGateway(orderId: Int32, id: Option<Int32>)
    requires IsLastId([NextId(Some(orderId)), Accounts(Some([]))], id)
    ensures id == Some(orderId)
  {
    assert GivesId([NextId(Some(orderId)), Accounts(Some([]))][0]);
  }

  /** Sessions can be established: for every client and every first order id some
      gateway brings a connection to success, with that id next. */
  lemma SomeGatewayConnects(clientId: Int32, orderId: Int32, installed: bool) returns (setup: Setup, s: Session)
    ensures setup == SetupOf(setup.platform, installed, clientId)
    ensures s == FreshSession(s.peer.inbound, [], [], clientId)
    ensures Establish(setup, s).result.Success?
    ensures Establish(setup, s).session.metadata.nextOrderId == orderId
  {
    setup := SetupOf(Gateway(orderId), installed, clientId);
    var reply: Bytes := [];
    s := FreshSession([Frame(reply)] + FRAMES, [], [], clientId);
    GatewayReplies(orderId, reply);
    NextIdFrame(setup, 210, []);
    AccountsFrame(setup, 210, []);
    assert s.peer.inbound[1..] == FRAMES;
    GatewayConnects(setup, s, orderId);
    GatewaySeeds(setup, s, orderId);
  }

  lemma GatewayConnects(setup: Setup, s: Session, orderId: Int32)
    requires Writable(s.peer, 2) && s.peer.inbound != [] && s.peer.inbound[1..] == FRAMES
    requires Welcomes(setup.platform, s.peer.inbound)
    requires ReplyVersion(setup.platform, s.peer.inbound) == 210
    requires var reading := Reading(setup, 210);
             reading(FRAMES[0].body) == NextId(Some(orderId)) && reading(FRAMES[1].body) == Accounts(Some([]))
    ensures Establish(setup, s).result.Success?
  {
    GatewaySettles(orderId, Reading(setup, 210));
    EstablishSucceedsIff(setup, s);
  }

  lemma GatewaySeeds(setup: Setup, s: Session, orderId: Int32)
    requires Establish(setup, s).result.Success? && s.peer.inbound != [] && s.peer.inbound[1..] == FRAMES
    requires Welcomes(setup.platform, s.peer.inbound)
    requires ReplyVersion(setup.platform, s.peer.inbound) == 210
    requires var reading := Reading(setup, 210);
             reading(FRAMES[0].body) == NextId(Some(orderId)) && reading(FRAMES[1].body) == Accounts(Some([]))
    ensures Establish(setup, s).session.metadata.nextOrderId == orderId
  {
    var reading := Reading(setup, 210);
    var n, reply, info := EstablishedMetadata(setup, s);
    GatewaySettles(orderId, reading);
    EndingIsUnique(reading, s.peer.(inbound := FRAMES), n, 2);
    LastIdOfGateway(orderId, info.nextOrderId);
  }
}
