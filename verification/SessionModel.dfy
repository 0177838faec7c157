/** A session against a scripted peer: what connecting and reconnecting do to
    the metadata, to the bytes sent and to the notices and callbacks, for any
    script of inbound frames and I/O outcomes. Both transports are proved to
    compute these functions. */
module SessionModel {
  import opened Wrappers
  import opened MachineInts
  import opened Framing
  import opened Errors
  import opened Messages
  import opened Handshake
  import opened Backoff

  datatype ReadOutcome = Frame(body: Bytes) | ReadFailed(error: Error)

  /** A write that fails may have sent some of its bytes. */
  datatype WriteOutcome = Written | WriteFailed(error: Error, accepted: nat)

  datatype ConnectOutcome = Connected | ConnectFailed(error: Error)

  /** The peer of a session: the outcomes still to come, and what the session
      has sent and slept. Past the end of its script the peer has closed, and
      reads find the end of the stream. */
  datatype Peer = Peer(
    inbound: seq<ReadOutcome>,
    writes: seq<WriteOutcome>,
    connects: seq<ConnectOutcome>,
    sent: Bytes,
    openings: seq<Opening>)
  {
    function Read(): (Result<Bytes, Error>, Peer) {
      if inbound == [] then (Failure(Io(UnexpectedEof, [])), this)
      else
        (match inbound[0]
         case Frame(body) => Success(body)
         case ReadFailed(error) => Failure(error),
         this.(inbound := inbound[1..]))
    }

    function Write(packet: Bytes): (Result<(), Error>, Peer) {
      if writes == [] then (Success(()), this.(sent := sent + packet))
      else
        var rest := this.(writes := writes[1..]);
        match writes[0]
        case Written => (Success(()), rest.(sent := sent + packet))
        case WriteFailed(error, accepted) =>
          (Failure(error), rest.(sent := sent + if accepted <= |packet| then packet[..accepted] else packet))
    }

    function Connect(): (Result<(), Error>, Peer) {
      var tried := this.(openings := openings + [Tried]);
      if connects == [] then (Success(()), tried)
      else
        (match connects[0]
         case Connected => Success(())
         case ConnectFailed(error) => Failure(error),
         tried.(connects := connects[1..]))
    }

    function Sleep(delay: nat): Peer {
      this.(openings := openings + [Slept(delay)])
    }
  }

  datatype Metadata = Metadata(
    nextOrderId: Int32,
    clientId: Int32,
    serverVersion: Int32,
    managedAccounts: string,
    connectionTime: Option<Instant>,
    timeZone: Option<Zone>)

  /** The metadata of a client before any handshake. */
  function FreshMetadata(clientId: Int32): Metadata {
    Metadata(0, clientId, 0, [], None, None)
  }

  datatype Session = Session(peer: Peer, heard: Heard, metadata: Metadata)

  /** A session before any handshake, over a peer's script. */
  function FreshSession(inbound: seq<ReadOutcome>, writes: seq<WriteOutcome>, connects: seq<ConnectOutcome>,
                        clientId: Int32): Session
  {
    Session(Peer(inbound, writes, connects, [], []), Heard([], []), FreshMetadata(clientId))
  }

  /** What does not change during a session: the code outside this model, whether a
      startup callback is installed, the client's id, and the two messages that start
      a session. */
  datatype Setup = Setup(platform: Platform, installed: bool, clientId: Int32, greeting: Bytes, start: Bytes)

  /** The setup of a client: it greets with the version prefix of the default handler,
      and starts with one framed StartApi message that carries its id. */
  function SetupOf(platform: Platform, installed: bool, clientId: Int32): Setup {
    Setup(platform, installed, clientId, DEFAULT_HANDLER.FormatHandshake(), Framed(StartApiBody(clientId)))
  }

  datatype Outcome = Outcome(result: Result<(), Error>, session: Session)

  const MAX_RECONNECT_ATTEMPTS: nat := 20
  const MAX_ATTEMPTS: nat := 100

  // ---- handshake and gate ----

  /** Takes the handshake's reply, read raw: never through a server version. */
  function TakeReply(platform: Platform, body: Bytes, metadata: Metadata): (Result<(), Error>, Metadata) {
    match HandshakeReply(FromText(platform.decodeText(body)))
    case Failure(error) => (Failure(error), metadata)
    case Success(data) =>
      var versioned := metadata.(serverVersion := data.serverVersion);
      match ParseConnectionTime(platform, data.serverTime)
      case Failure(error) => (Failure(error), versioned)
      case Success((time, zone)) => (Success(()), versioned.(connectionTime := time, timeZone := zone))
  }

  /** A peer that closes instead of replying has rejected the connection. */
  function RejectionOf(error: Error): Error {
    match error
    case Io(UnexpectedEof, detail) => ConnectionRejected(detail)
    case _ => error
  }

  function HandshakeStep(setup: Setup, s: Session): Outcome {
    var (written, p1) := s.peer.Write(setup.greeting);
    match written
    case Failure(error) => Outcome(Failure(error), s.(peer := p1))
    case Success(_) =>
      var (read, p2) := p1.Read();
      match read
      case Failure(error) => Outcome(Failure(RejectionOf(error)), s.(peer := p2))
      case Success(body) =>
        var (taken, metadata) := TakeReply(setup.platform, body, s.metadata);
        Outcome(taken, s.(peer := p2, metadata := metadata))
  }

  function StartApiStep(setup: Setup, s: Session): Outcome {
    var (written, p) := s.peer.Write(setup.start);
    Outcome(written, s.(peer := p))
  }

  // ---- account info ----

  function Absorb(info: AccountInfo, news: AccountInfo): AccountInfo {
    AccountInfo(if news.nextOrderId.Some? then news.nextOrderId else info.nextOrderId,
                if news.managedAccounts.Some? then news.managedAccounts else info.managedAccounts)
  }

  predicate Complete(info: AccountInfo) {
    info.nextOrderId.Some? && info.managedAccounts.Some?
  }

  /** When the loop stops: both values known, or more than the allowed frames read. */
  predicate Stops(info: AccountInfo, attempts: nat) {
    Complete(info) || attempts > MAX_ATTEMPTS
  }

  /** How a session under a server version takes a frame. */
  function Reading(setup: Setup, serverVersion: Int32): Bytes -> Effect {
    body => FrameEffect(setup.platform, setup.installed, serverVersion,
                        ParseRawMessage(setup.platform.decodeText, body, serverVersion))
  }

  /** One turn of the loop, from `before` to `after`: what it takes off the peer,
      what the listeners hear, and what it yields. */
  ghost predicate FrameTaken(reading: Bytes -> Effect, before: Session, after: Session,
                             yielded: Result<AccountInfo, Error>)
  {
    var (read, rest) := before.peer.Read();
    match read
    case Failure(error) => yielded == Failure(error) && after == before.(peer := rest)
    case Success(body) =>
      var e := reading(body);
      yielded == e.Yield() && after == before.(peer := rest, heard := before.heard.Observe(e))
  }

  /** What the account-info loop returns, and the peer and listeners after it. */
  datatype Received = Received(result: Result<AccountInfo, Error>, peer: Peer, heard: Heard)

  /** The account-info loop, with `info` merged from `attempts` frames so far. */
  function ReceiveLoop(reading: Bytes -> Effect, peer: Peer, heard: Heard, info: AccountInfo, attempts: nat): Received
    requires attempts <= MAX_ATTEMPTS
    decreases MAX_ATTEMPTS - attempts
  {
    var (read, rest) := peer.Read();
    match read
    case Failure(error) => Received(Failure(error), rest, heard)
    case Success(body) =>
      var e := reading(body);
      match e.Yield()
      case Failure(error) => Received(Failure(error), rest, heard.Observe(e))
      case Success(news) =>
        var merged := Absorb(info, news);
        if Stops(merged, attempts + 1) then Received(Success(merged), rest, heard.Observe(e))
        else ReceiveLoop(reading, rest, heard.Observe(e), merged, attempts + 1)
  }

  /** From `before` with `known`, the loop does what it does from `after` with the
      merged information, or has ended there. */
  ghost predicate LoopAdvances(reading: Bytes -> Effect, before: Session, after: Session,
                               known: AccountInfo, merged: Result<AccountInfo, Error>, attempts: nat)
    requires attempts <= MAX_ATTEMPTS
  {
    ReceiveLoop(reading, before.peer, before.heard, known, attempts)
    == if merged.Success? && !Stops(merged.value, attempts + 1)
       then ReceiveLoop(reading, after.peer, after.heard, merged.value, attempts + 1)
       else Received(merged, after.peer, after.heard)
  }

  /** A turn of the loop unfolds the loop by one frame. */
  lemma LoopTurn(reading: Bytes -> Effect, before: Session, after: Session, yielded: Result<AccountInfo, Error>,
                 known: AccountInfo, attempts: nat)
    requires attempts <= MAX_ATTEMPTS
    requires FrameTaken(reading, before, after, yielded)
    ensures yielded.Failure? ==> LoopAdvances(reading, before, after, known, yielded, attempts)
    ensures yielded.Success? ==>
              LoopAdvances(reading, before, after, known, Success(Absorb(known, yielded.value)), attempts)
  {
  }

  function Store(metadata: Metadata, info: AccountInfo): Metadata {
    metadata.(nextOrderId := info.nextOrderId.GetOr(metadata.nextOrderId),
              managedAccounts := info.managedAccounts.GetOr(metadata.managedAccounts))
  }

  function ReceiveStep(setup: Setup, s: Session): Outcome {
    var r := ReceiveLoop(Reading(setup, s.metadata.serverVersion), s.peer, s.heard, NO_ACCOUNT_INFO, 0);
    match r.result
    case Failure(error) => Outcome(Failure(error), s.(peer := r.peer, heard := r.heard))
    case Success(info) => Outcome(Success(()), Session(r.peer, r.heard, Store(s.metadata, info)))
  }

  // ---- a session ----

  function Establish(setup: Setup, s: Session): Outcome {
    AfterHandshake(setup, HandshakeStep(setup, s))
  }

  /** Whether the handshake lets the session start: it succeeded and passes the gate. */
  predicate MayStart(shaken: Outcome) {
    shaken.result.Success? && RequireProtobufSupport(shaken.session.metadata.serverVersion).Success?
  }

  function AfterHandshake(setup: Setup, shaken: Outcome): Outcome {
    if shaken.result.Failure? then shaken
    else
      match RequireProtobufSupport(shaken.session.metadata.serverVersion)
      case Failure(error) => Outcome(Failure(error), shaken.session)
      case Success(_) => AfterStart(setup, StartApiStep(setup, shaken.session))
  }

  function AfterStart(setup: Setup, started: Outcome): Outcome {
    if started.result.Failure? then started else ReceiveStep(setup, started.session)
  }

  function Reset(setup: Setup, s: Session): Session {
    s.(metadata := FreshMetadata(setup.clientId))
  }

  /** What follows a socket that opened: the handshake, on metadata started afresh. */
  function Replaying(setup: Setup): Session -> Outcome {
    s => Establish(setup, Reset(setup, s))
  }

  /** Reconnecting, from attempt `i` of at most `limit`. */
  function ReconnectFrom(replay: Session -> Outcome, limit: nat, i: nat, s: Session): Outcome
    requires i <= limit
    decreases limit - i
  {
    if i == limit then Outcome(Failure(ConnectionFailed), s)
    else
      var (connected, peer) := s.peer.Sleep(Delay(i)).Connect();
      var next := s.(peer := peer);
      if connected.Success? then replay(next) else ReconnectFrom(replay, limit, i + 1, next)
  }

  function Reconnect(setup: Setup, s: Session): Outcome {
    ReconnectFrom(Replaying(setup), MAX_RECONNECT_ATTEMPTS, 0, s)
  }

  // ---- runs of a session ----

  datatype Call = EstablishCall | ReconnectCall

  function Perform(setup: Setup, call: Call, s: Session): Outcome {
    match call
    case EstablishCall => Establish(setup, s)
    case ReconnectCall => Reconnect(setup, s)
  }

  /** The results of a sequence of calls, whatever each returns, and the session after it. */
  function Run(setup: Setup, calls: seq<Call>, s: Session): (seq<Result<(), Error>>, Session) {
    if calls == [] then ([], s)
    else
      var before := Run(setup, calls[..|calls| - 1], s);
      var last := Perform(setup, calls[|calls| - 1], before.1);
      (before.0 + [last.result], last.session)
  }
}
