/** The blocking connection. The server version is kept in the metadata. */
module SyncConnection {
  import opened Wrappers
  import opened MachineInts
  import opened Framing
  import opened Errors
  import opened Messages
  import opened Handshake
  import opened Backoff
  import opened SessionModel
  import opened Transport

  class Connection {
    const clientId: Int32
    const socket: Socket
    const platform: Platform
    const handler: ConnectionHandler
    const observers: Observers
    const maxRetries: nat
    var metadata: Metadata

    constructor WithSocket(socket: Socket, clientId: Int32, platform: Platform, observers: Observers)
      ensures this.socket == socket && this.clientId == clientId && this.platform == platform
      ensures this.observers == observers && Valid()
      ensures metadata == FreshMetadata(clientId) && metadata == Metadata(0, clientId, 0, [], None, None)
    {
      this.socket, this.clientId, this.platform, this.observers := socket, clientId, platform, observers;
      handler := DEFAULT_HANDLER;
      maxRetries := MAX_RECONNECT_ATTEMPTS;
      metadata := FreshMetadata(clientId);
    }

    ghost predicate Valid() {
      handler == DEFAULT_HANDLER && maxRetries == MAX_RECONNECT_ATTEMPTS
    }

    ghost function Fixed(): Setup {
      SetupOf(platform, observers.installed, clientId)
    }

    ghost function View(): Session
      reads this, socket, observers
    {
      Session(socket.Snapshot(), observers.Snapshot(), metadata)
    }

    function ServerVersion(): Int32
      reads this
    {
      metadata.serverVersion
    }

    method ConnectionMetadata() returns (m: Metadata)
      ensures m == View().metadata
    {
      m := metadata;
    }

    method ReadMessage() returns (r: Result<Message, Error>)
      modifies socket
      ensures var (read, peer) := old(socket.Snapshot()).Read();
              && socket.Snapshot() == peer
              && r == match read
                      case Success(body) => Success(ParseRawMessage(platform.decodeText, body, ServerVersion()))
                      case Failure(error) => Failure(error)
    {
      var body :- socket.ReadMessage();
      return Success(ParseRawMessage(platform.decodeText, body, ServerVersion()));
    }

    method WriteRaw(body: Bytes) returns (r: Result<(), Error>)
      modifies socket
      ensures (r, socket.Snapshot()) == old(socket.Snapshot()).Write(Framed(body))
    {
      var packet := EncodeRawLength(body);
      r := socket.WriteAll(packet);
    }

    /** Takes the reply as raw text: `ParseRawMessage` would read it under the version
        of the session before. */
    method TakeHandshakeReply(body: Bytes) returns (r: Result<(), Error>)
      modifies this
      ensures var (taken, m) := TakeReply(platform, body, old(View()).metadata);
              r == taken && View() == old(View()).(metadata := m)
    {
      var response := new ResponseMessage(FromText(platform.decodeText(body)));
      var data :- ParseHandshakeResponse(response);
      metadata := metadata.(serverVersion := data.serverVersion);
      var timeAndZone :- ParseConnectionTime(platform, data.serverTime);
      metadata := metadata.(connectionTime := timeAndZone.0);
      metadata := metadata.(timeZone := timeAndZone.1);
      return Success(());
    }

    method DoHandshake() returns (r: Result<(), Error>)
      requires Valid()
      modifies this, socket
      ensures Outcome(r, View()) == HandshakeStep(Fixed(), old(View()))
    {
      var _ :- socket.WriteAll(handler.FormatHandshake());
      var ack := socket.ReadMessage();
      match ack {
        case Success(body) =>
          r := TakeHandshakeReply(body);
        case Failure(Io(UnexpectedEof, detail)) =>
          return Failure(ConnectionRejected(detail));
        case Failure(error) =>
          return Failure(error);
      }
    }

    method StartApi() returns (r: Result<(), Error>)
      requires Valid()
      modifies socket
      ensures Outcome(r, View()) == StartApiStep(Fixed(), old(View()))
    {
      var body := handler.FormatStartApi(clientId);
      r := WriteRaw(body);
    }

    /** One turn of the account-info loop: reads a frame and takes what it yields. */
    method ReceiveFrame(serverVersion: Int32) returns (r: Result<AccountInfo, Error>)
      requires serverVersion == ServerVersion()
      modifies socket, observers
      ensures FrameTaken(Reading(Fixed(), serverVersion), old(View()), View(), r)
    {
      var message :- ReadMessage();
      r := TakeMessage(platform, serverVersion, message, observers);
    }

    /** The body of the account-info loop: a frame, merged into what is known. */
    method MergeFrame(serverVersion: Int32, known: AccountInfo, ghost attempts: nat)
      returns (r: Result<AccountInfo, Error>)
      requires serverVersion == ServerVersion() && attempts <= MAX_ATTEMPTS
      modifies socket, observers
      ensures LoopAdvances(Reading(Fixed(), serverVersion), old(View()), View(), known, r, attempts)
    {
      ghost var before := View();
      var yielded := ReceiveFrame(serverVersion);
      LoopTurn(Reading(Fixed(), serverVersion), before, View(), yielded, known, attempts);
      var news :- yielded;
      var info := known;
      if news.nextOrderId.Some? {
        info := info.(nextOrderId := news.nextOrderId);
      }
      if news.managedAccounts.Some? {
        info := info.(managedAccounts := news.managedAccounts);
      }
      assert info == Absorb(known, news);
      return Success(info);
    }

    /** The loop itself, up to the account data it collects. */
    method CollectAccountInfo() returns (r: Result<AccountInfo, Error>)
      modifies socket, observers
      ensures var before := old(View());
              ReceiveLoop(Reading(Fixed(), metadata.serverVersion), before.peer, before.heard, NO_ACCOUNT_INFO, 0)
              == Received(r, View().peer, View().heard)
    {
      var info := NO_ACCOUNT_INFO;
      var attempts := 0;
      var serverVersion := ServerVersion();
      ghost var reading := Reading(Fixed(), serverVersion);
      ghost var all := ReceiveLoop(reading, View().peer, View().heard, info, attempts);
      while true
        invariant 0 <= attempts <= MAX_ATTEMPTS
        invariant all == ReceiveLoop(reading, View().peer, View().heard, info, attempts)
        decreases MAX_ATTEMPTS - attempts
      {
        info :- MergeFrame(serverVersion, info, attempts);
        attempts := attempts + 1;
        if (info.nextOrderId.Some? && info.managedAccounts.Some?) || attempts > MAX_ATTEMPTS {
          break;
        }
      }
      return Success(info);
    }

    method StoreAccountInfo(info: AccountInfo)
      modifies this
      ensures View() == old(View()).(metadata := Store(old(View()).metadata, info))
    {
      if info.nextOrderId.Some? {
        metadata := metadata.(nextOrderId := info.nextOrderId.value);
      }
      if info.managedAccounts.Some? {
        metadata := metadata.(managedAccounts := info.managedAccounts.value);
      }
    }

    method ReceiveAccountInfo() returns (r: Result<(), Error>)
      modifies this, socket, observers
      ensures Outcome(r, View()) == ReceiveStep(Fixed(), old(View()))
    {
      var info :- CollectAccountInfo();
      StoreAccountInfo(info);
      return Success(());
    }

    method EstablishConnection() returns (r: Result<(), Error>)
      requires Valid()
      modifies this, socket, observers
      ensures Outcome(r, View()) == Establish(Fixed(), old(View()))
    {
      var _ :- DoHandshake();
      var _ :- RequireProtobufSupport(ServerVersion());
      var _ :- StartApi();
      var _ :- ReceiveAccountInfo();
      return Success(());
    }

    method ResetConnectionMetadata()
      modifies this
      ensures View() == Reset(Fixed(), old(View()))
      ensures View() == old(View()).(metadata := Metadata(0, clientId, 0, [], None, None))
    {
      metadata := FreshMetadata(clientId);
    }

    method DoReconnect() returns (r: Result<(), Error>)
      requires Valid()
      modifies this, socket, observers
      ensures Outcome(r, View()) == Reconnect(Fixed(), old(View()))
    {
      var backoff := new FibonacciBackoff(MAX_DELAY);
      ghost var before := View();
      for i := 0 to maxRetries
        invariant backoff.After(i) && fresh(backoff) && backoff.max == MAX_DELAY
        invariant Reconnect(Fixed(), before) == ReconnectFrom(Replaying(Fixed()), maxRetries, i, View())
      {
        var delay := backoff.NextDelay(i);
        socket.Sleep(delay);
        var connected := socket.Reconnect();
        if connected.Success? {
          ResetConnectionMetadata();
          var _ :- EstablishConnection();
          return Success(());
        }
      }
      return Failure(ConnectionFailed);
    }
  }
}
