/** The asynchronous connection. The server version is kept apart from the
    metadata, in a cell of its own that is laid over it on every read, and a flag
    tells the write gate which writes belong to the handshake. */
module AsyncConnection {
  import opened Wrappers
  import opened MachineInts
  import opened Framing
  import opened Errors
  import opened Messages
  import opened Handshake
  import opened Backoff
  import opened SessionModel
  import opened Transport
  import opened WriteGate
  import opened MessageKinds
  import opened Ascii

  class Connection {
    const clientId: Int32
    const socket: Socket
    const platform: Platform
    const handler: ConnectionHandler
    const observers: Observers
    var metadata: Metadata
    var serverVersionCache: Int32
    var handshaking: bool

    constructor WithSocket(socket: Socket, clientId: Int32, platform: Platform, observers: Observers)
      ensures this.socket == socket && this.clientId == clientId && this.platform == platform
      ensures this.observers == observers && Valid()
      ensures View().metadata == FreshMetadata(clientId) && !handshaking
      ensures View().metadata == Metadata(0, clientId, 0, [], None, None)
    {
      this.socket, this.clientId, this.platform, this.observers := socket, clientId, platform, observers;
      handler := DEFAULT_HANDLER;
      metadata := FreshMetadata(clientId);
      serverVersionCache := 0;
      handshaking := false;
    }

    ghost predicate Valid() {
      handler == DEFAULT_HANDLER
    }

    ghost function Fixed(): Setup {
      SetupOf(platform, observers.installed, clientId)
    }

    /** The session this connection stands for: its metadata is the stored one
        under the version in the cell. */
    ghost function View(): Session
      reads this, socket, observers
    {
      Session(socket.Snapshot(), observers.Snapshot(), metadata.(serverVersion := serverVersionCache))
    }

    function ServerVersion(): Int32
      reads this
    {
      serverVersionCache
    }

    method ConnectionMetadata() returns (m: Metadata)
      ensures m == View().metadata
    {
      m := metadata;
      m := m.(serverVersion := serverVersionCache);
    }

    method ReadMessage() returns (r: Result<Message, Error>)
      modifies socket
      ensures var (read, peer) := old(socket.Snapshot()).Read();
              && socket.Snapshot() == peer
              && r == match read
                      case Success(body) => Success(ParseRawMessage(platform.decodeText, body, ServerVersion()))
                      case Failure(error) => Failure(error)
      ensures socket.told == old(socket.told)
    {
      var body :- socket.ReadMessage();
      return Success(ParseRawMessage(platform.decodeText, body, ServerVersion()));
    }

    method WriteRawFor(body: Bytes, requestId: Option<Int32>) returns (r: Result<(), Error>)
      modifies socket
      ensures (r, socket.Snapshot()) == old(socket.Snapshot()).Write(Framed(body))
      ensures socket.told == old(socket.told) + [Describe(platform.decodeOrderId, body, requestId, handshaking)]
    {
      var meta := Describe(platform.decodeOrderId, body, requestId, handshaking);
      var packet := EncodeRawLength(body);
      r := socket.WriteFrame(meta, packet);
    }

    /** Takes the reply as raw text: `ParseRawMessage` would read it under the version
        of the session before. */
    method TakeHandshakeReply(body: Bytes) returns (r: Result<(), Error>)
      modifies this
      ensures var (taken, m) := TakeReply(platform, body, old(View()).metadata);
              r == taken && View() == old(View()).(metadata := m)
      ensures handshaking == old(handshaking)
    {
      var response := new ResponseMessage(FromText(platform.decodeText(body)));
      var data :- ParseHandshakeResponse(response);
      serverVersionCache := data.serverVersion;
      var timeAndZone :- ParseConnectionTime(platform, data.serverTime);
      metadata := metadata.(connectionTime := timeAndZone.0);
      metadata := metadata.(timeZone := timeAndZone.1);
      return Success(());
    }

    method DoHandshake() returns (r: Result<(), Error>)
      requires Valid()
      modifies this, socket
      ensures Outcome(r, View()) == HandshakeStep(Fixed(), old(View()))
      ensures socket.told == old(socket.told) + [PREFIX_META] && handshaking == old(handshaking)
    {
      var meta := Describe(platform.decodeOrderId, [], None, true);
      assert meta == PREFIX_META by { EmptyBodyHasNoMessage(platform.decodeOrderId); }
      var _ :- socket.WriteFrame(meta, handler.FormatHandshake());
      var ack := socket.ReadMessage();
      match ack {
        case Success(body) =>
          r := TakeHandshakeReply(body);
        case Failure(Io(UnexpectedEof, detail)) =>
          return Failure(ConnectionRejected(detail));
        case Failure(error) =>
          return Failure(error);
      }
    }

    method StartApi() returns (r: Result<(), Error>)
      requires Valid()
      modifies socket
      ensures Outcome(r, View()) == StartApiStep(Fixed(), old(View()))
      ensures socket.told == old(socket.told) + [START_META.(handshake := handshaking)]
    {
      ProtobufIsRecognised(START_API, StartApiPayload(clientId));
      OrderIsRecognised(platform.decodeOrderId, START_API, StartApiPayload(clientId));
      var body := handler.FormatStartApi(clientId);
      r := WriteRawFor(body, None);
    }

    /** One turn of the account-info loop: reads a frame and takes what it yields. */
    method ReceiveFrame(serverVersion: Int32) returns (r: Result<AccountInfo, Error>)
      requires serverVersion == ServerVersion()
      modifies socket, observers
      ensures FrameTaken(Reading(Fixed(), serverVersion), old(View()), View(), r)
      ensures socket.told == old(socket.told)
    {
      var message :- ReadMessage();
      r := TakeMessage(platform, serverVersion, message, observers);
    }

    /** The body of the account-info loop: a frame, merged into what is known. */
    method MergeFrame(serverVersion: Int32, known: AccountInfo, ghost attempts: nat)
      returns (r: Result<AccountInfo, Error>)
      requires serverVersion == ServerVersion() && attempts <= MAX_ATTEMPTS
      modifies socket, observers
      ensures LoopAdvances(Reading(Fixed(), serverVersion), old(View()), View(), known, r, attempts)
      ensures socket.told == old(socket.told)
    {
      ghost var before := View();
      var yielded := ReceiveFrame(serverVersion);
      LoopTurn(Reading(Fixed(), serverVersion), before, View(), yielded, known, attempts);
      var news :- yielded;
      var info := known;
      if news.nextOrderId.Some? {
        info := info.(nextOrderId := news.nextOrderId);
      }
      if news.managedAccounts.Some? {
        info := info.(managedAccounts := news.managedAccounts);
      }
      assert info == Absorb(known, news);
      return Success(info);
    }

    /** The loop itself, up to the account data it collects. */
    method CollectAccountInfo() returns (r: Result<AccountInfo, Error>)
      modifies socket, observers
      ensures ReceiveLoop(Reading(Fixed(), serverVersionCache), old(View()).peer, old(View()).heard, NO_ACCOUNT_INFO, 0)
           == Received(r, View().peer, View().heard)
      ensures socket.told == old(socket.told)
    {
      var info := NO_ACCOUNT_INFO;
      var attempts := 0;
      var serverVersion := ServerVersion();
      ghost var reading := Reading(Fixed(), serverVersion);
      ghost var all := ReceiveLoop(reading, View().peer, View().heard, info, attempts);
      while true
        invariant 0 <= attempts <= MAX_ATTEMPTS
        invariant socket.told == old(socket.told)
        invariant all == ReceiveLoop(reading, View().peer, View().heard, info, attempts)
        decreases MAX_ATTEMPTS - attempts
      {
        info :- MergeFrame(serverVersion, info, attempts);
        attempts := attempts + 1;
        if (info.nextOrderId.Some? && info.managedAccounts.Some?) || attempts > MAX_ATTEMPTS {
          break;
        }
      }
      return Success(info);
    }

    method StoreAccountInfo(info: AccountInfo)
      modifies this
      ensures View() == old(View()).(metadata := Store(old(View()).metadata, info))
      ensures handshaking == old(handshaking)
    {
      if info.nextOrderId.Some? {
        metadata := metadata.(nextOrderId := info.nextOrderId.value);
      }
      if info.managedAccounts.Some? {
        metadata := metadata.(managedAccounts := info.managedAccounts.value);
      }
    }

    method ReceiveAccountInfo() returns (r: Result<(), Error>)
      modifies this, socket, observers
      ensures Outcome(r, View()) == ReceiveStep(Fixed(), old(View()))
      ensures socket.told == old(socket.told) && handshaking == old(handshaking)
    {
      var info :- CollectAccountInfo();
      StoreAccountInfo(info);
      return Success(());
    }

    /** The handshake itself, as it runs while the flag is up. */
    method Handshaken() returns (r: Result<(), Error>)
      requires Valid() && handshaking
      modifies this, socket, observers
      ensures Outcome(r, View()) == Establish(Fixed(), old(View()))
      ensures socket.told == old(socket.told) + EstablishMetas(Fixed(), old(View())) && handshaking
    {
      var _ :- DoHandshake();
      var _ :- RequireProtobufSupport(ServerVersion());
      var _ :- StartApi();
      r := ReceiveAccountInfo();
    }

    /** Every write it makes is told to the gate as part of the handshake, and the
        flag is down after it however it ends. */
    method EstablishConnection() returns (r: Result<(), Error>)
      requires Valid()
      modifies this, socket, observers
      ensures Outcome(r, View()) == Establish(Fixed(), old(View()))
      ensures socket.told == old(socket.told) + EstablishMetas(Fixed(), old(View()))
      ensures !handshaking
    {
      handshaking := true;
      r := Handshaken();
      handshaking := false;
    }

    method ResetConnectionMetadata()
      modifies this
      ensures View() == Reset(Fixed(), old(View())) && handshaking == old(handshaking)
      ensures View() == old(View()).(metadata := Metadata(0, clientId, 0, [], None, None))
    {
      serverVersionCache := 0;
      metadata := FreshMetadata(clientId);
    }

    method DoReconnect() returns (r: Result<(), Error>)
      requires Valid() && !handshaking
      modifies this, socket, observers
      ensures Outcome(r, View()) == Reconnect(Fixed(), old(View()))
      ensures !handshaking && OnlyHandshakes(old(socket.told), socket.told)
    {
      var backoff := new FibonacciBackoff(MAX_DELAY);
      ghost var before := View();
      for i := 0 to MAX_RECONNECT_ATTEMPTS
        invariant backoff.After(i) && fresh(backoff) && backoff.max == MAX_DELAY
        invariant Reconnect(Fixed(), before) == ReconnectFrom(Replaying(Fixed()), MAX_RECONNECT_ATTEMPTS, i, View())
        invariant !handshaking && socket.told == old(socket.told)
      {
        var delay := backoff.NextDelay(i);
        socket.Sleep(delay);
        var connected := socket.Reconnect();
        if connected.Success? {
          ResetConnectionMetadata();
          var _ :- EstablishConnection();
          return Success(());
        }
      }
      return Failure(ConnectionFailed);
    }
  }

  /** What the gate is told of the version prefix and of StartApi. */
  const PREFIX_META := OutgoingMeta(None, None, None, true)
  const START_META := OutgoingMeta(Some(71), None, None, true)

  lemma EmptyBodyHasNoMessage(decode: OrderIdDecoder)
    ensures Describe(decode, [], None, true) == PREFIX_META
  {
    assert AsciiText([]) == "";
  }

  /** What the gate is told of the writes of one handshake. */
  function EstablishMetas(setup: Setup, s: Session): (metas: seq<OutgoingMeta>)
    ensures forall i :: 0 <= i < |metas| ==> metas[i].handshake
  {
    if MayStart(HandshakeStep(setup, s)) then [PREFIX_META, START_META] else [PREFIX_META]
  }

  /** All that was told since `before` belongs to a handshake. */
  ghost predicate OnlyHandshakes(before: seq<OutgoingMeta>, after: seq<OutgoingMeta>) {
    && before <= after
    && forall i :: |before| <= i < |after| ==> after[i].handshake
  }
}
