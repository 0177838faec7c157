/** The connection logic shared by the two transports: what is written when a
    session starts, and what each inbound frame of the handshake means. */
module Handshake {
  import opened Wrappers
  import opened MachineInts
  import opened Ascii
  import opened Decimal
  import opened Delimited
  import opened Framing
  import opened MessageKinds
  import opened Errors
  import opened DateTimes
  import opened WriteGate
  import opened Messages

  /** A decoded payload, left opaque. */
  type Payload = Bytes

  /** The code this model does not open: text and protobuf decoding, the time
      zone table, and the decoders of orders and account values. */
  datatype Platform = Platform(
    decodeText: Bytes -> string,
    findZone: string -> Option<Zone>,
    assumeZone: (Civil, Zone) -> Option<Instant>,
    instantOfMillis: int -> Option<Instant>,
    decodeNextValidId: Bytes -> Result<Option<Int32>, string>,
    decodeManagedAccounts: Bytes -> Result<Option<string>, string>,
    decodeErrorEnvelope: Bytes -> Option<Notice>,
    decodePayload: (Int32, Message) -> Result<Payload, string>,
    decodeOrderId: OrderIdDecoder)

  // ---- outbound ----

  const HANDSHAKE_PREFIX: Bytes := [0x41, 0x50, 0x49, 0]

  /** A natural number in base 128, least significant group first. */
  function Varint(n: nat): (b: Bytes)
    ensures |b| >= 1
  {
    if n < 128 then [n] else [n % 128 + 128] + Varint(n / 128)
  }

  function ReadVarint(b: Bytes): Option<(nat, Bytes)> {
    if b == [] then None
    else
      var low: int := b[0];
      if low < 128 then Some((low, b[1..]))
      else
        match ReadVarint(b[1..])
        case None => None
        case Some((high, rest)) => Some((low - 128 + 128 * high, rest))
  }

  lemma {:induction false} VarintReadsBack(n: nat, rest: Bytes)
    ensures ReadVarint(Varint(n) + rest) == Some((n, rest))
    decreases n
  {
    if n < 128 {
      assert Varint(n) + rest == [n] + rest;
    } else {
      var low: Byte := n % 128 + 128;
      VarintReadsBack(n / 128, rest);
      var b := Varint(n) + rest;
      assert b == [low] + (Varint(n / 128) + rest);
      assert b[1..] == Varint(n / 128) + rest;
    }
  }

  /** The varints of 1, 300 and 2^64 - 1, as the protobuf encoding has them. */
  lemma KnownVarints()
    ensures Varint(1) == [1] && Varint(300) == [0xAC, 2]
    ensures Varint(0xFFFF_FFFF_FFFF_FFFF) == [0xFF, 0xFF, 0xFF, 0xFF, 0xFF, 0xFF, 0xFF, 0xFF, 0xFF, 1]
  {
  }

  function Pow128(k: nat): nat {
    if k == 0 then 1 else 128 * Pow128(k - 1)
  }

  lemma {:induction false} VarintLength(n: nat, k: nat)
    requires k >= 1 && n < Pow128(k)
    ensures |Varint(n)| <= k
    decreases k
  {
    if n < 128 {
    } else {
      assert k > 1;
      VarintLength(n / 128, k - 1);
    }
  }

  /** An `i32` in 64 bits, extended by its sign. */
  function In64Bits(n: Int32): (m: nat)
    ensures n >= 0 ==> m == n
    ensures n < 0 ==> m == n + 0x1_0000_0000_0000_0000
  {
    n % 0x1_0000_0000_0000_0000
  }

  /** The protobuf StartApiRequest: field 1, the client id as a 64-bit varint. */
  function StartApiPayload(clientId: Int32): Bytes {
    [0x08] + Varint(In64Bits(clientId))
  }

  function StartApiBody(clientId: Int32): Bytes {
    ProtobufBody(START_API, StartApiPayload(clientId))
  }

  lemma StartApiBodyTail(clientId: Int32)
    ensures StartApiBody(clientId)[5..] == Varint(In64Bits(clientId))
  {
  }

  /** A StartApi message tells its client id: no two clients send the same one. */
  lemma StartApiCarriesClientId(a: Int32, b: Int32)
    requires StartApiBody(a) == StartApiBody(b)
    ensures a == b
  {
    StartApiBodyTail(a);
    StartApiBodyTail(b);
    VarintReadsBack(In64Bits(a), []);
    VarintReadsBack(In64Bits(b), []);
    assert Varint(In64Bits(a)) + [] == Varint(In64Bits(b)) + [];
  }

  /** The connection handler: the range of versions the client offers. */
  datatype ConnectionHandler = ConnectionHandler(minVersion: Int32, maxVersion: Int32) {

    function VersionText(): (s: string)
      ensures IsAscii(s)
    {
      ['v'] + PrintInt(minVersion) + ['.', '.'] + PrintInt(maxVersion)
    }

    function FormatHandshake(): Bytes {
      HANDSHAKE_PREFIX + Framed(TextBytes(VersionText()))
    }

    method FormatStartApi(clientId: Int32) returns (body: Bytes)
      ensures body == StartApiBody(clientId)
    {
      body := EncodeProtobufMessage(START_API, StartApiPayload(clientId));
    }
  }

  const DEFAULT_HANDLER := ConnectionHandler(PROTOBUF_SCAN_DATA, UPDATE_CONFIG)

  // ---- the reply ----

  datatype HandshakeData = HandshakeData(serverVersion: Int32, serverTime: string)

  function HandshakeReply(reply: Message): Result<HandshakeData, Error> {
    var version :- IntAt(reply.fields, 0);
    var time :- StringAt(reply.fields, 1);
    Success(HandshakeData(version, time))
  }

  /** The first field of a reply is the version, the second the time. */
  lemma ReplyReads(reply: Message, version: Int32, time: string)
    requires |reply.fields| >= 2 && reply.fields[0] == PrintInt(version) && reply.fields[1] == time
    ensures HandshakeReply(reply) == Success(HandshakeData(version, time))
  {
    ParsePrintInt32(version);
  }

  /** A reply is refused for the first field that is missing or no number. */
  lemma ReplyRefused(reply: Message)
    ensures HandshakeReply(reply).Failure?
       <==> |reply.fields| < 2 || ParseInt32(reply.fields[0]) == None
    ensures reply.fields == [] ==> HandshakeReply(reply) == Failure(Parse(0, [], EndOfMessage(IntField)))
    ensures reply.fields != [] && ParseInt32(reply.fields[0]) == None ==>
              HandshakeReply(reply) == Failure(Parse(1, reply.fields[0], NotAnInteger))
    ensures |reply.fields| == 1 && ParseInt32(reply.fields[0]).Some? ==>
              HandshakeReply(reply) == Failure(Parse(1, [], EndOfMessage(StringField)))
  {
  }

  method ParseHandshakeResponse(response: ResponseMessage) returns (r: Result<HandshakeData, Error>)
    requires response.i == 0
    modifies response
    ensures r == HandshakeReply(response.body)
  {
    var version :- response.NextInt();
    var time :- response.NextString();
    return Success(HandshakeData(version, time));
  }

  /** The version gate: requests are protobuf only. */
  function RequireProtobufSupport(serverVersion: Int32): Result<(), Error> {
    if serverVersion < PROTOBUF_SCAN_DATA then Failure(ServerVersion(PROTOBUF_SCAN_DATA, serverVersion))
    else Success(())
  }

  /** Date, time of day and zone name of the reply's time; the zone name is all
      that follows the second blank. */
  function TimeParts(time: string): Option<(string, string)> {
    var parts := Split(time, ' ');
    if |parts| < 3 then None
    else Some((parts[0] + [' '] + parts[1], Join(parts[2..], ' ')))
  }

  /** The connection time and zone. Only a zone name that is not known is an error. */
  function ParseConnectionTime(platform: Platform, time: string): Result<(Option<Instant>, Option<Zone>), Error> {
    match TimeParts(time)
    case None => Success((None, None))
    case Some((date, zoneName)) =>
      match platform.findZone(zoneName)
      case None => Failure(UnsupportedTimeZone(zoneName))
      case Some(zone) =>
        match ReadCivil(date, " ")
        case None => Success((None, Some(zone)))
        case Some(civil) => Success((platform.assumeZone(civil, zone), Some(zone)))
  }

  /** The zone's name is all behind the second blank, whatever blanks it holds. */
  lemma TimePartsRead(date: string, clock: string, zone: string)
    requires ' ' !in date && ' ' !in clock
    ensures TimeParts(date + [' '] + clock + [' '] + zone) == Some((date + [' '] + clock, zone))
  {
    var civil := date + [' '] + clock;
    SplitConcat(civil, zone, ' ');
    SplitConcat(date, clock, ' ');
    SplitFree(date, ' ');
    SplitFree(clock, ' ');
    JoinSplit(zone, ' ');
    assert ([date] + [clock] + Split(zone, ' '))[2..] == Split(zone, ' ');
  }

  /** A civil time with any zone's name behind it is the reply's time in that zone, or
      an error for the zone alone. */
  lemma ConnectionTimeReads(platform: Platform, c: Civil, zoneName: string)
    requires IsCivil(c)
    ensures ParseConnectionTime(platform, PrintCivil(c, " ") + [' '] + zoneName)
         == match platform.findZone(zoneName)
            case None => Failure(UnsupportedTimeZone(zoneName))
            case Some(zone) => Success((platform.assumeZone(c, zone), Some(zone)))
  {
    PrintedWithoutBlanks(c);
    PrintedCivilReads(c, " ");
    TimePartsRead(PrintDate(c.date), PrintClock(c), zoneName);
  }

  /** A time of fewer than three parts gives no time and no zone, and is no error. */
  lemma ShortTimeReads(platform: Platform, date: string, clock: string)
    requires ' ' !in date && ' ' !in clock
    ensures ParseConnectionTime(platform, date) == Success((None, None))
    ensures ParseConnectionTime(platform, date + [' '] + clock) == Success((None, None))
  {
    SplitConcat(date, clock, ' ');
    SplitFree(date, ' ');
    SplitFree(clock, ' ');
  }

  /** A known zone is kept behind a date or a time of day that cannot be read. */
  lemma UnreadableTimeKeepsZone(platform: Platform, date: string, clock: string, zoneName: string)
    requires ' ' !in date && ' ' !in clock
    requires ReadCivil(date + [' '] + clock, " ") == None
    ensures ParseConnectionTime(platform, date + [' '] + clock + [' '] + zoneName)
         == match platform.findZone(zoneName)
            case None => Failure(UnsupportedTimeZone(zoneName))
            case Some(zone) => Success((None, Some(zone)))
  {
    TimePartsRead(date, clock, zoneName);
  }

  // ---- inbound ----

  function NoticeOf(platform: Platform, message: Message): Notice {
    var envelope :=
      if message.isProtobuf && message.rawBytes.Some? then platform.decodeErrorEnvelope(message.rawBytes.value)
      else None;
    match envelope
    case Some(notice) => notice
    case None =>
      Notice(ErrorCode(message), WireText(ErrorText(message)),
             ErrorTime(message, platform.instantOfMillis), RejectJson(message))
  }

  function ClientIdRefusal(platform: Platform, message: Message): Option<Notice> {
    if MessageKind(message) != Kind.Error then None
    else
      var notice := NoticeOf(platform, message);
      if notice.code == CLIENT_ID_IN_USE_CODE then Some(notice) else None
  }

  datatype AccountUpdate =
    | AccountValueUpdate(p: Payload)
    | PortfolioValueUpdate(p: Payload)
    | UpdateTime(p: Payload)
    | End

  /** What the startup callback receives. */
  datatype StartupMessage =
    | OpenOrderMessage(p: Payload)
    | OrderStatusMessage(p: Payload)
    | OpenOrderEndMessage
    | AccountUpdateMessage(update: AccountUpdate)
    | ExecutionMessage(p: Payload)
    | CommissionReportMessage(p: Payload)
    | CompletedOrderMessage(p: Payload)
    | ExecutionDataEndMessage
    | CompletedOrdersEndMessage
  {
    function MessageType(): Kind {
      match this
      case OpenOrderMessage(_) => OpenOrder
      case OrderStatusMessage(_) => OrderStatus
      case OpenOrderEndMessage => OpenOrderEnd
      case AccountUpdateMessage(update) =>
        (match update
         case AccountValueUpdate(_) => AccountValue
         case PortfolioValueUpdate(_) => PortfolioValue
         case UpdateTime(_) => AccountUpdateTime
         case End => AccountDownloadEnd)
      case ExecutionMessage(_) => ExecutionData
      case CommissionReportMessage(_) => CommissionsReport
      case CompletedOrderMessage(_) => CompletedOrder
      case ExecutionDataEndMessage => ExecutionDataEnd
      case CompletedOrdersEndMessage => CompletedOrdersEnd
    }
  }

  /** The account-update decoder: one variant for each kind, none for the others. */
  function DecodeAccountUpdate(platform: Platform, serverVersion: Int32, message: Message)
    : Result<AccountUpdate, string>
  {
    match MessageKind(message)
    case AccountValue => var p :- platform.decodePayload(serverVersion, message); Success(AccountValueUpdate(p))
    case PortfolioValue => var p :- platform.decodePayload(serverVersion, message); Success(PortfolioValueUpdate(p))
    case AccountUpdateTime => var p :- platform.decodePayload(serverVersion, message); Success(UpdateTime(p))
    case AccountDownloadEnd => Success(End)
    case _ => Failure("unexpected response")
  }

  /** The next order id and the managed accounts, as far as they are known. */
  datatype AccountInfo = AccountInfo(nextOrderId: Option<Int32>, managedAccounts: Option<string>)

  const NO_ACCOUNT_INFO := AccountInfo(None, None)

  /** All a handshake frame can do. */
  datatype Effect =
    | NextId(id: Option<Int32>)
    | Accounts(list: Option<string>)
    | Told(notice: Notice)
    | Called(message: StartupMessage)
    | Dropped
    | Refused(notice: Notice)
    | Fatal(error: Error)
  {
    /** Whether the handshake ends with this frame. */
    predicate Ends() {
      Refused? || Fatal?
    }

    function Notices(): seq<Notice> {
      if Told? || Refused? then [notice] else []
    }

    function Calls(): seq<StartupMessage> {
      if Called? then [message] else []
    }

    /** What the frame yields: account data, or the error it ends with. */
    function Yield(): Result<AccountInfo, Error> {
      match this
      case NextId(id) => Success(AccountInfo(id, None))
      case Accounts(list) => Success(AccountInfo(None, list))
      case Refused(notice) => Failure(NoticeError(notice))
      case Fatal(error) => Failure(error)
      case _ => Success(NO_ACCOUNT_INFO)
    }
  }

  /** Kinds that come with a payload for the callback, and markers without one. */
  predicate IsTyped(kind: Kind) {
    kind.OpenOrder? || kind.OrderStatus? || kind.AccountValue? || kind.PortfolioValue? || kind.AccountUpdateTime?
    || kind.AccountDownloadEnd? || kind.ExecutionData? || kind.CommissionsReport? || kind.CompletedOrder?
  }

  predicate IsMarker(kind: Kind) {
    kind.OpenOrderEnd? || kind.ExecutionDataEnd? || kind.CompletedOrdersEnd?
  }

  /** The callback message a typed frame decodes to. */
  function DecodeTyped(platform: Platform, serverVersion: Int32, message: Message): Result<StartupMessage, string>
    requires IsTyped(MessageKind(message))
  {
    var kind := MessageKind(message);
    if kind.AccountValue? || kind.PortfolioValue? || kind.AccountUpdateTime? || kind.AccountDownloadEnd? then
      var update :- DecodeAccountUpdate(platform, serverVersion, message);
      Success(AccountUpdateMessage(update))
    else
      var p :- platform.decodePayload(serverVersion, message);
      Success(match kind
              case OpenOrder => OpenOrderMessage(p)
              case OrderStatus => OrderStatusMessage(p)
              case ExecutionData => ExecutionMessage(p)
              case CommissionsReport => CommissionReportMessage(p)
              case _ => CompletedOrderMessage(p))
  }

  function MarkerMessage(kind: Kind): StartupMessage
    requires IsMarker(kind)
  {
    if kind.OpenOrderEnd? then OpenOrderEndMessage
    else if kind.ExecutionDataEnd? then ExecutionDataEndMessage
    else CompletedOrdersEndMessage
  }

  function NextIdEffect(platform: Platform, message: Message): (e: Effect)
    ensures e.Notices() == [] && e.Calls() == []
  {
    if message.isProtobuf then
      if message.rawBytes.None? then NextId(None)
      else
        match platform.decodeNextValidId(message.rawBytes.value)
        case Success(id) => NextId(id)
        case Failure(detail) => Fatal(ProtobufDecode(detail))
    else
      match IntAt(message.fields, 2)
      case Success(id) => NextId(Some(id))
      case Failure(error) => Fatal(error)
  }

  function AccountsEffect(platform: Platform, message: Message): (e: Effect)
    ensures e.Notices() == [] && e.Calls() == []
  {
    if message.isProtobuf then
      if message.rawBytes.None? then Accounts(None)
      else
        match platform.decodeManagedAccounts(message.rawBytes.value)
        case Success(list) => Accounts(list)
        case Failure(detail) => Fatal(ProtobufDecode(detail))
    else
      match StringAt(message.fields, 2)
      case Success(list) => Accounts(Some(list))
      case Failure(error) => Fatal(error)
  }

  /** The effect of a frame that is neither account data nor a refusal. */
  function UnsolicitedEffect(platform: Platform, installed: bool, serverVersion: Int32, message: Message): (e: Effect)
    ensures e.Yield() == Success(NO_ACCOUNT_INFO)
  {
    var kind := MessageKind(message);
    if kind == Kind.Error then Told(NoticeOf(platform, message))
    else if IsTyped(kind) then
      if !installed then Dropped
      else
        match DecodeTyped(platform, serverVersion, message)
        case Success(m) => Called(m)
        case Failure(cause) => Told(Synthesized(HANDSHAKE_DECODE_FAILURE_CODE, DecodeFailureText(kind, cause)))
    else if IsMarker(kind) then
      if installed then Called(MarkerMessage(kind)) else Dropped
    else Told(Synthesized(HANDSHAKE_UNKNOWN_FRAME_CODE, UnknownFrameText(kind)))
  }

  /** The effect of a frame once it is known not to be a refusal. */
  function AccountEffect(platform: Platform, installed: bool, serverVersion: Int32, message: Message): (e: Effect)
    ensures !e.Refused?
  {
    match MessageKind(message)
    case NextValidId => NextIdEffect(platform, message)
    case ManagedAccounts => AccountsEffect(platform, message)
    case _ => UnsolicitedEffect(platform, installed, serverVersion, message)
  }

  /** The effect of a frame of the account-info loop. */
  function FrameEffect(platform: Platform, installed: bool, serverVersion: Int32, message: Message): Effect {
    match ClientIdRefusal(platform, message)
    case Some(notice) => Refused(notice)
    case None => AccountEffect(platform, installed, serverVersion, message)
  }

  // ---- the same, as the program runs it ----

  /** What the notice sink and the startup callback have received. */
  datatype Heard = Heard(notices: seq<Notice>, calls: seq<StartupMessage>) {
    function Observe(e: Effect): Heard {
      Heard(notices + e.Notices(), calls + e.Calls())
    }
  }

  /** The notice sink, and the startup callback when one is installed, as the
      lists of what each has received. */
  class Observers {
    const installed: bool
    var notices: seq<Notice>
    var calls: seq<StartupMessage>

    constructor (installed: bool)
      ensures this.installed == installed && notices == [] && calls == []
    {
      this.installed := installed;
      notices, calls := [], [];
    }

    function Snapshot(): Heard
      reads this
    {
      Heard(notices, calls)
    }

    method Deliver(notice: Notice)
      modifies this
      ensures notices == old(notices) + [notice] && calls == old(calls)
    {
      notices := notices + [notice];
    }

    method Call(message: StartupMessage)
      requires installed
      modifies this
      ensures calls == old(calls) + [message] && notices == old(notices)
    {
      calls := calls + [message];
    }
  }

  method DispatchTyped(platform: Platform, serverVersion: Int32, kind: Kind, message: Message, observers: Observers)
    requires MessageKind(message) == kind && IsTyped(kind)
    modifies observers
    ensures var e := UnsolicitedEffect(platform, observers.installed, serverVersion, message);
            && observers.notices == old(observers.notices) + e.Notices()
            && observers.calls == old(observers.calls) + e.Calls()
  {
    if !observers.installed {
      return;
    }
    match DecodeTyped(platform, serverVersion, message) {
      case Success(m) => observers.Call(m);
      case Failure(cause) =>
        observers.Deliver(Synthesized(HANDSHAKE_DECODE_FAILURE_CODE, DecodeFailureText(kind, cause)));
    }
  }

  method DispatchUnit(message: StartupMessage, observers: Observers)
    modifies observers
    ensures observers.notices == old(observers.notices)
    ensures observers.calls == old(observers.calls) + if observers.installed then [message] else []
  {
    if observers.installed {
      observers.Call(message);
    }
  }

  method DispatchUnsolicitedMessage(platform: Platform, serverVersion: Int32, message: Message, observers: Observers)
    modifies observers
    ensures var e := UnsolicitedEffect(platform, observers.installed, serverVersion, message);
            && observers.notices == old(observers.notices) + e.Notices()
            && observers.calls == old(observers.calls) + e.Calls()
  {
    var kind := MessageKind(message);
    match kind {
      case Error => observers.Deliver(NoticeOf(platform, message));
      case OpenOrderEnd => DispatchUnit(OpenOrderEndMessage, observers);
      case ExecutionDataEnd => DispatchUnit(ExecutionDataEndMessage, observers);
      case CompletedOrdersEnd => DispatchUnit(CompletedOrdersEndMessage, observers);
      case OpenOrder | OrderStatus | AccountValue | PortfolioValue | AccountUpdateTime | AccountDownloadEnd
        | ExecutionData | CommissionsReport | CompletedOrder =>
        DispatchTyped(platform, serverVersion, kind, message, observers);
      case _ =>
        observers.Deliver(Synthesized(HANDSHAKE_UNKNOWN_FRAME_CODE, UnknownFrameText(kind)));
    }
  }

  method ParseNextValidId(platform: Platform, message: ResponseMessage) returns (r: Result<AccountInfo, Error>)
    requires message.i == 0
    modifies message
    ensures r == NextIdEffect(platform, message.body).Yield()
  {
    var info := NO_ACCOUNT_INFO;
    if message.body.isProtobuf {
      if message.body.rawBytes.Some? {
        match platform.decodeNextValidId(message.body.rawBytes.value) {
          case Success(id) => info := info.(nextOrderId := id);
          case Failure(detail) => return Failure(ProtobufDecode(detail));
        }
      }
    } else {
      message.Skip();
      message.Skip();
      var id :- message.NextInt();
      info := info.(nextOrderId := Some(id));
    }
    return Success(info);
  }

  method ParseManagedAccounts(platform: Platform, message: ResponseMessage) returns (r: Result<AccountInfo, Error>)
    requires message.i == 0
    modifies message
    ensures r == AccountsEffect(platform, message.body).Yield()
  {
    var info := NO_ACCOUNT_INFO;
    if message.body.isProtobuf {
      if message.body.rawBytes.Some? {
        match platform.decodeManagedAccounts(message.body.rawBytes.value) {
          case Success(list) => info := info.(managedAccounts := list);
          case Failure(detail) => return Failure(ProtobufDecode(detail));
        }
      }
    } else {
      message.Skip();
      message.Skip();
      var list :- message.NextString();
      info := info.(managedAccounts := Some(list));
    }
    return Success(info);
  }

  method ParseAccountInfo(platform: Platform, serverVersion: Int32, message: ResponseMessage, observers: Observers)
    returns (r: Result<AccountInfo, Error>)
    requires message.i == 0
    modifies message, observers
    ensures var e := AccountEffect(platform, observers.installed, serverVersion, message.body);
            && r == e.Yield()
            && observers.notices == old(observers.notices) + e.Notices()
            && observers.calls == old(observers.calls) + e.Calls()
  {
    match MessageKind(message.body) {
      case NextValidId =>
        r := ParseNextValidId(platform, message);
      case ManagedAccounts =>
        r := ParseManagedAccounts(platform, message);
      case _ =>
        DispatchUnsolicitedMessage(platform, serverVersion, message.body, observers);
        r := Success(NO_ACCOUNT_INFO);
    }
  }

  /** What the account-info loop of either transport does with a message: a
      refusal ends it as itself, anything else is parsed or dispatched. */
  method TakeMessage(platform: Platform, serverVersion: Int32, message: Message, observers: Observers)
    returns (r: Result<AccountInfo, Error>)
    modifies observers
    ensures var e := FrameEffect(platform, observers.installed, serverVersion, message);
            && r == e.Yield()
            && observers.notices == old(observers.notices) + e.Notices()
            && observers.calls == old(observers.calls) + e.Calls()
  {
    match ClientIdRefusal(platform, message) {
      case Some(notice) =>
        observers.Deliver(notice);
        return Failure(NoticeError(notice));
      case None =>
        var response := new ResponseMessage(message);
        r := ParseAccountInfo(platform, serverVersion, response, observers);
    }
  }
}
